/** trojanApiService.syncServerUsers: one reconciliation of a desired user set against a box. */
module Reconciler {
  import opened Wrappers
  import opened TrojanBox

  // ---- Inputs and results ---------------------------------------------------------------

  // What is wanted for one managed row; speeds in KiB/s as the panel stores them.
  datatype Desired = Desired(id: int, name: string, password: string, enabled: bool,
                             speedUp: real, speedDown: real, ipLimit: int)

  datatype Options = Options(deleteHashes: seq<Hash>, armHashes: seq<Hash>, armIpLimit: int, removeUnmanaged: bool)

  datatype Action = Created | Updated | Deleted | Absent | Error

  datatype Message = NoMessage | Rejected(verb: string, code: int) | Failure | NotPresent | StillPresent | IpNotApplied

  datatype Applied = Applied(id: int, name: string, hash: Hash, action: Action, message: Message,
                             stats: Option<LiveUser>)

  datatype SyncResult = SyncResult(ok: bool, applied: seq<Applied>)

  // ---- The limits of one user -----------------------------------------------------------

  /** kibToBytes: the closest number of bytes, where 0 means unlimited. Speeds of 0 and below are
      unlimited, and so are positive ones that round to 0. */
  function KibToBytes(kib: real): (b: nat)
    ensures b == 0 <==> kib < 1.0 / 2048.0
    ensures kib > 0.0 ==> b as real - 0.5 <= 1024.0 * kib < b as real + 0.5
  {
    if kib > 0.0 then (kib * 1024.0 + 0.5).Floor else 0
  }

  // Whole speeds are exact.
  lemma KibToBytesWhole(kib: nat)
    ensures KibToBytes(kib as real) == 1024 * kib
  {
    assert kib as real * 1024.0 == (1024 * kib) as real;
  }

  function Wanted(d: Desired): Limits {
    Limits(KibToBytes(d.speedUp), KibToBytes(d.speedDown), Max(0, d.ipLimit))
  }

  function HashOf(d: Desired): Hash {
    Sha224(d.password)
  }

  function ArmLimit(o: Options): int {
    Max(0, o.armIpLimit)
  }

  // Entries with an empty hash are dropped by filter(Boolean) on both option lists.
  predicate ToDelete(o: Options, h: Hash) {
    h != NO_HASH && h in o.deleteHashes
  }

  predicate ToArm(o: Options, h: Hash) {
    h != NO_HASH && h in o.armHashes && ArmLimit(o) > 0
  }

  function ArmedLimits(o: Options, h: Hash, l: Limits): Limits {
    if ToArm(o, h) && l.ip == 0 then l.(ip := ArmLimit(o)) else l
  }

  // ---- Specification: where one run leaves an obedient box ------------------------------

  // new Map(users.map(...)).get(h): the last of several rows with one hash wins.
  function DesiredFor(users: seq<Desired>, h: Hash): Option<Desired> {
    if users == [] then None
    else if HashOf(users[|users| - 1]) == h then Some(users[|users| - 1])
    else DesiredFor(users[..|users| - 1], h)
  }

  ghost predicate Distinct(users: seq<Desired>) {
    forall i, j :: 0 <= i < j < |users| ==> HashOf(users[i]) != HashOf(users[j])
  }

  /** The entry of hash h after a run: desired rows decide over everything else; of the others,
      orphans and (if asked) all unmanaged users go, armed users get only an ip limit. */
  function Target(before: map<Hash, Limits>, users: seq<Desired>, o: Options, h: Hash): Option<Limits> {
    match DesiredFor(users, h)
    case Some(d) => if d.enabled then Some(Wanted(d)) else None
    case None =>
      if h !in before || ToDelete(o, h) || o.removeUnmanaged then None
      else Some(ArmedLimits(o, h, before[h]))
  }

  ghost predicate Reconciled(before: map<Hash, Limits>, users: seq<Desired>, o: Options, after: map<Hash, Limits>) {
    forall h :: Lookup(after, h) == Target(before, users, o, h)
  }

  // ---- Lemmas about the specification ---------------------------------------------------

  lemma {:induction false} DesiredForAt(users: seq<Desired>, i: nat)
    requires i < |users| && Distinct(users)
    ensures DesiredFor(users, HashOf(users[i])) == Some(users[i])
  {
    var n := |users| - 1;
    if i < n {
      DesiredForAt(users[..n], i);
    }
  }

  lemma {:induction false} DesiredForSound(users: seq<Desired>, h: Hash)
    ensures DesiredFor(users, h).Some? <==> exists i :: 0 <= i < |users| && HashOf(users[i]) == h
    ensures DesiredFor(users, h).Some? ==>
      HashOf(DesiredFor(users, h).value) == h && DesiredFor(users, h).value in users
  {
    if i :| 0 <= i < |users| && HashOf(users[i]) == h {
      DesiredForKnown(users, h, i);
    }
    if DesiredFor(users, h).Some? {
      var k := DesiredForRow(users, h);
    }
  }

  // The row the index answers with is the last one of its hash.
  lemma {:induction false} DesiredForRow(users: seq<Desired>, h: Hash) returns (k: nat)
    requires DesiredFor(users, h).Some?
    ensures k < |users| && DesiredFor(users, h) == Some(users[k]) && HashOf(users[k]) == h
    ensures forall i :: k < i < |users| ==> HashOf(users[i]) != h
  {
    var n := |users| - 1;
    if HashOf(users[n]) == h {
      k := n;
    } else {
      k := DesiredForRow(users[..n], h);
    }
  }

  lemma {:induction false} DesiredForKnown(users: seq<Desired>, h: Hash, i: nat)
    requires i < |users| && HashOf(users[i]) == h
    ensures DesiredFor(users, h).Some?
  {
    var n := |users| - 1;
    if i < n {
      DesiredForKnown(users[..n], h, i);
    }
  }

  // The reconciled box is unique.
  lemma ReconciledUnique(before: map<Hash, Limits>, users: seq<Desired>, o: Options,
                         m: map<Hash, Limits>, n: map<Hash, Limits>)
    requires Reconciled(before, users, o, m) && Reconciled(before, users, o, n)
    ensures m == n
  {
    forall h ensures h in m <==> h in n
      ensures h in m ==> m[h] == n[h]
    {
      assert Lookup(m, h) == Lookup(n, h);
    }
  }

  // Reconciling a second time with the same inputs changes nothing.
  lemma ReconcileIdempotent(before: map<Hash, Limits>, users: seq<Desired>, o: Options,
                            once: map<Hash, Limits>, twice: map<Hash, Limits>)
    requires Reconciled(before, users, o, once) && Reconciled(once, users, o, twice)
    ensures twice == once
  {
    forall h ensures Lookup(twice, h) == Lookup(once, h) {
      assert Lookup(once, h) == Target(before, users, o, h);
      assert Lookup(twice, h) == Target(once, users, o, h);
    }
    forall h ensures h in twice <==> h in once
      ensures h in twice ==> twice[h] == once[h]
    {
      assert Lookup(twice, h) == Lookup(once, h);
    }
  }

  // Desired rows: enabled ones end with exactly their limits, upload, download and addresses each
  // from its own column; disabled ones are gone.
  lemma ReconciledDesired(before: map<Hash, Limits>, users: seq<Desired>, o: Options, after: map<Hash, Limits>, i: nat)
    requires Distinct(users) && Reconciled(before, users, o, after) && i < |users|
    ensures var d, h := users[i], Sha224(users[i].password);
      if d.enabled then
        && h in after && after[h].up == KibToBytes(d.speedUp) && after[h].down == KibToBytes(d.speedDown)
        && after[h].ip == if d.ipLimit > 0 then d.ipLimit else 0
      else h !in after
  {
    DesiredForAt(users, i);
    assert Lookup(after, HashOf(users[i])) == Target(before, users, o, HashOf(users[i]));
  }

  // Everybody else: orphans are gone, an armed user without ip limit changes only that limit,
  // and users the run has no business with keep all three limits; nobody appears.
  lemma ReconciledFrame(before: map<Hash, Limits>, users: seq<Desired>, o: Options, after: map<Hash, Limits>, h: Hash)
    requires Reconciled(before, users, o, after)
    requires forall i :: 0 <= i < |users| ==> HashOf(users[i]) != h
    requires !o.removeUnmanaged
    ensures h in after <==> h in before && !(h != NO_HASH && h in o.deleteHashes)
    ensures h in after ==> after[h].up == before[h].up && after[h].down == before[h].down
    ensures h in after && h in o.armHashes && h != NO_HASH && o.armIpLimit > 0 && before[h].ip == 0 ==> after[h].ip == o.armIpLimit
    ensures h in after && (h !in o.armHashes || o.armIpLimit <= 0 || before[h].ip != 0) ==> after[h] == before[h]
  {
    DesiredForSound(users, h);
    assert Lookup(after, h) == Target(before, users, o, h);
  }

  // With removeUnmanaged nothing but the enabled desired users is left.
  lemma ReconciledOwned(before: map<Hash, Limits>, users: seq<Desired>, o: Options, after: map<Hash, Limits>, h: Hash)
    requires Distinct(users) && Reconciled(before, users, o, after) && o.removeUnmanaged
    ensures h in after <==> exists i :: 0 <= i < |users| && users[i].enabled && HashOf(users[i]) == h
  {
    assert Lookup(after, h) == Target(before, users, o, h);
    DesiredForSound(users, h);
    if i :| 0 <= i < |users| && HashOf(users[i]) == h {
      DesiredForAt(users, i);
      assert forall k :: 0 <= k < |users| && HashOf(users[k]) == h ==> k == i;
    }
  }

  // ---- Indexing a listing ---------------------------------------------------------------

  function ByHash(live: seq<LiveUser>): map<Option<Hash>, LiveUser> {
    if live == [] then map[]
    else var last := live[|live| - 1]; ByHash(live[..|live| - 1])[last.hash := last]
  }

  lemma {:induction false} ByHashSound(live: seq<LiveUser>, k: Option<Hash>)
    ensures k in ByHash(live) <==> exists i :: 0 <= i < |live| && live[i].hash == k
    ensures k in ByHash(live) ==> ByHash(live)[k] in live && ByHash(live)[k].hash == k
  {
    if live != [] {
      var n := |live| - 1;
      ByHashSound(live[..n], k);
      assert live == live[..n] + [live[n]];
      if live[n].hash != k && exists i :: 0 <= i < |live| && live[i].hash == k {
        var i :| 0 <= i < |live| && live[i].hash == k;
        assert live[..n][i].hash == k;
      }
    }
  }

  // Of a truthful listing, the index is the box.
  lemma ByHashOfTruth(live: seq<LiveUser>, users: map<Hash, Limits>, h: Hash)
    requires Lists(live, users)
    ensures Some(h) in ByHash(live) <==> h in users
    ensures h in users ==> ByHash(live)[Some(h)].limits == users[h]
  {
    ByHashSound(live, Some(h));
    if h in users {
      assert ListedHash(live, h);
    }
  }

  // ---- The run --------------------------------------------------------------------------

  function Outcome(r: Reply, verb: string, done: Action): (Action, Message) {
    match r
    case Exit(code) => if code == 0 then (done, NoMessage) else (Error, Rejected(verb, code))
    case Threw => (Error, Failure)
  }

  function Cleaned(before: map<Hash, Limits>, o: Options): map<Hash, Limits> {
    map h | h in before && !ToDelete(o, h) :: before[h]
  }

  function Armed(before: map<Hash, Limits>, o: Options): map<Hash, Limits> {
    map h | h in before :: ArmedLimits(o, h, before[h])
  }

  // The exchanges of a list of commands, whatever the replies.
  ghost predicate Answered(part: seq<Exchange>, commands: seq<Command>) {
    && |part| == |commands|
    && forall i :: 0 <= i < |part| ==> part[i].Did? && part[i].command == commands[i]
  }

  function DeleteCommands(hashes: seq<Hash>): seq<Command> {
    if hashes == [] then []
    else
      var h := hashes[|hashes| - 1];
      DeleteCommands(hashes[..|hashes| - 1]) + (if h != NO_HASH then [DeleteUser(h)] else [])
  }

  lemma DeleteCommandsSnoc(hashes: seq<Hash>, h: Hash)
    ensures DeleteCommands(hashes + [h]) == DeleteCommands(hashes) + (if h != NO_HASH then [DeleteUser(h)] else [])
  {
    assert (hashes + [h])[..|hashes|] == hashes;
  }

  function CleanedOf(before: map<Hash, Limits>, hashes: seq<Hash>): map<Hash, Limits> {
    map h | h in before && !(h != NO_HASH && h in hashes) :: before[h]
  }

  lemma CleanOneMore(before: map<Hash, Limits>, hashes: seq<Hash>, h: Hash)
    ensures CleanedOf(before, hashes + [h]) == if h != NO_HASH then CleanedOf(before, hashes) - {h} else CleanedOf(before, hashes)
  {
  }

  // Orphan cleanup before the first listing.
  method DeleteOrphans(box: Box, o: Options) returns (ghost part: seq<Exchange>)
    requires box.Valid()
    modifies box
    ensures box.Valid()
    ensures box.log == old(box.log) + part && Answered(part, DeleteCommands(o.deleteHashes))
    ensures box.obedient ==> box.users == Cleaned(old(box.users), o)
  {
    ghost var start := box.users;
    part := [];
    for i := 0 to |o.deleteHashes|
      invariant box.Valid()
      invariant box.log == old(box.log) + part && Answered(part, DeleteCommands(o.deleteHashes[..i]))
      invariant box.obedient ==> box.users == CleanedOf(start, o.deleteHashes[..i])
    {
      var h := o.deleteHashes[i];
      assert o.deleteHashes[..i + 1] == o.deleteHashes[..i] + [h];
      DeleteCommandsSnoc(o.deleteHashes[..i], h);
      CleanOneMore(start, o.deleteHashes[..i], h);
      if h != NO_HASH {
        var r := box.Delete(h);
        AnsweredAppend(part, DeleteCommands(o.deleteHashes[..i]), [Did(DeleteUser(h), r)], [DeleteUser(h)]);
        part := part + [Did(DeleteUser(h), r)];
      }
    }
    assert o.deleteHashes[..|o.deleteHashes|] == o.deleteHashes;
  }

  // The state after arming the users listed so far.
  ghost predicate ArmedSoFar(start: map<Hash, Limits>, o: Options, live: seq<LiveUser>, now: map<Hash, Limits>) {
    && now.Keys == start.Keys
    && forall h :: h in start ==> now[h] == if ListedHash(live, h) then ArmedLimits(o, h, start[h]) else start[h]
  }

  lemma ArmOneMore(start: map<Hash, Limits>, o: Options, live: seq<LiveUser>, i: nat,
                   was: map<Hash, Limits>, now: map<Hash, Limits>)
    requires Lists(live, start) && i < |live|
    requires ArmedSoFar(start, o, live[..i], was)
    requires now == was[live[i].hash.value := ArmedLimits(o, live[i].hash.value, live[i].limits)]
    ensures ArmedSoFar(start, o, live[..i + 1], now)
  {
    assert live[..i + 1] == live[..i] + [live[i]];
    ListedSnoc(live[..i], live[i]);
  }

  // A truthful listing names each user once, so the next one still has the limits it is listed with.
  lemma NotYetArmed(start: map<Hash, Limits>, o: Options, live: seq<LiveUser>, i: nat, now: map<Hash, Limits>)
    requires Lists(live, start) && i < |live| && ArmedSoFar(start, o, live[..i], now)
    ensures live[i].hash.value in now && now[live[i].hash.value] == live[i].limits
    ensures now == now[live[i].hash.value := live[i].limits]
  {
    assert !ListedHash(live[..i], live[i].hash.value);
  }

  predicate NeedsArming(o: Options, u: LiveUser) {
    u.hash.Some? && ToArm(o, u.hash.value) && u.limits.ip == 0
  }

  // The live speeds, resent, and the arming ip limit.
  function ArmingLimits(o: Options, u: LiveUser): Limits {
    Limits(Max(0, u.limits.up), Max(0, u.limits.down), ArmLimit(o))
  }

  function ArmCommands(o: Options, live: seq<LiveUser>): seq<Command> {
    if live == [] then []
    else
      var u := live[|live| - 1];
      ArmCommands(o, live[..|live| - 1]) + ArmCommand(o, u)
  }

  lemma ArmCommandsSnoc(o: Options, live: seq<LiveUser>, u: LiveUser)
    ensures ArmCommands(o, live + [u]) == ArmCommands(o, live) + ArmCommand(o, u)
  {
    assert (live + [u])[..|live|] == live;
  }

  lemma AnsweredAppend(a: seq<Exchange>, c: seq<Command>, b: seq<Exchange>, d: seq<Command>)
    requires Answered(a, c) && Answered(b, d)
    ensures Answered(a + b, c + d)
  {
  }

  function ArmCommand(o: Options, u: LiveUser): seq<Command> {
    if NeedsArming(o, u) then [ModifyUser(u.hash.value, ArmingLimits(o, u))] else []
  }

  method ArmOne(box: Box, o: Options, u: LiveUser) returns (ghost part: seq<Exchange>)
    requires box.Valid()
    modifies box
    ensures box.Valid()
    ensures box.log == old(box.log) + part && Answered(part, ArmCommand(o, u))
    ensures box.obedient && u.hash.Some? && Lookup(old(box.users), u.hash.value) == Some(u.limits) ==>
      box.users == old(box.users)[u.hash.value := ArmedLimits(o, u.hash.value, u.limits)]
  {
    part := [];
    ghost var was := box.users;
    if NeedsArming(o, u) {
      var r := box.Modify(u.hash.value, ArmingLimits(o, u));
      part := [Did(ModifyUser(u.hash.value, ArmingLimits(o, u)), r)];
    } else if u.hash.Some? && Lookup(was, u.hash.value) == Some(u.limits) {
      assert was == was[u.hash.value := u.limits];
    }
  }

  // Users that cannot be pushed get a counting ip limit if they have none.
  method ArmImported(box: Box, o: Options, live: seq<LiveUser>) returns (ghost part: seq<Exchange>)
    requires box.Valid()
    requires box.obedient ==> Lists(live, box.users)
    modifies box
    ensures box.Valid()
    ensures box.log == old(box.log) + part && Answered(part, ArmCommands(o, live))
    ensures box.obedient ==> box.users == Armed(old(box.users), o)
  {
    ghost var start := box.users;
    part := [];
    for i := 0 to |live|
      invariant box.Valid()
      invariant box.log == old(box.log) + part && Answered(part, ArmCommands(o, live[..i]))
      invariant box.obedient ==> ArmedSoFar(start, o, live[..i], box.users)
    {
      ghost var was := box.users;
      if box.obedient {
        NotYetArmed(start, o, live, i, was);
      }
      ghost var more := ArmOne(box, o, live[i]);
      assert live[..i + 1] == live[..i] + [live[i]];
      ArmCommandsSnoc(o, live[..i], live[i]);
      AnsweredAppend(part, ArmCommands(o, live[..i]), more, ArmCommand(o, live[i]));
      Joined(old(box.log), part, more, []);
      part := part + more;
      if box.obedient {
        ArmOneMore(start, o, live, i, was, box.users);
      }
    }
    assert live[..|live|] == live;
    if box.obedient {
      AllArmed(start, o, live, box.users);
    }
  }

  lemma AllArmed(start: map<Hash, Limits>, o: Options, live: seq<LiveUser>, now: map<Hash, Limits>)
    requires Lists(live, start) && ArmedSoFar(start, o, live, now)
    ensures now == Armed(start, o)
  {
  }

  lemma ListedSnoc(live: seq<LiveUser>, u: LiveUser)
    ensures forall h :: ListedHash(live + [u], h) <==> ListedHash(live, h) || u.hash == Some(h)
  {
    var longer := live + [u];
    assert longer[|live|] == u;
    forall h ensures ListedHash(longer, h) <==> ListedHash(live, h) || u.hash == Some(h) {
      if ListedHash(live, h) {
        var k :| 0 <= k < |live| && live[k].hash == Some(h);
        assert longer[k].hash == Some(h);
      }
    }
  }

  // The entry of a desired row after its own command: final, but for an ip limit Add lost.
  ghost predicate PushedEntry(d: Desired, existed: bool, entry: Option<Limits>) {
    if !d.enabled then entry == None
    else entry == Some(Wanted(d)) || (!existed && entry == Some(Wanted(d).(ip := 0)))
  }

  function ExpectedAction(d: Desired, existed: bool): Action {
    if d.enabled then (if existed then Updated else Created) else (if existed then Deleted else Absent)
  }

  // Every command that did not exit with 0 is an error with a reason; success needs an exit 0.
  ghost predicate Reported(reply: Option<Reply>, action: Action, message: Message) {
    && (action.Error? ==> message != NoMessage)
    && (reply.Some? && reply.value != Exit(0) ==> action.Error?)
    && (action.Created? || action.Updated? || action.Deleted? ==> reply == Some(Exit(0)))
  }

  ghost predicate AllReported(replies: seq<Option<Reply>>, applied: seq<Applied>) {
    && |replies| == |applied|
    && forall i :: 0 <= i < |applied| ==> Reported(replies[i], applied[i].action, applied[i].message)
  }

  // The one command a row needs.
  function RowCommand(d: Desired, present: bool): Option<Command> {
    if d.enabled then Some(if present then ModifyUser(HashOf(d), Wanted(d)) else AddUser(d.password, Wanted(d)))
    else if present then Some(DeleteUser(HashOf(d)))
    else None
  }

  // What went over the connection for it; a reply belongs to it exactly if it was sent.
  function RowExchange(d: Desired, present: bool, reply: Option<Reply>): seq<Exchange> {
    if RowCommand(d, present).Some? && reply.Some? then [Did(RowCommand(d, present).value, reply.value)] else []
  }

  method PushUser(box: Box, d: Desired, present: bool)
    returns (action: Action, message: Message, ghost reply: Option<Reply>)
    requires box.Valid()
    modifies box
    ensures box.Valid()
    ensures box.log == old(box.log) + RowExchange(d, present, reply)
    ensures reply.Some? <==> RowCommand(d, present).Some?
    ensures Reported(reply, action, message)
    ensures action.Error? || action == ExpectedAction(d, present)
    ensures box.obedient && present == (HashOf(d) in old(box.users)) ==>
      && action == ExpectedAction(d, present) && message == NoMessage
      && PushedEntry(d, present, Lookup(box.users, HashOf(d)))
      && forall h :: h != HashOf(d) ==> Lookup(box.users, h) == Lookup(old(box.users), h)
  {
    var h := HashOf(d);
    reply := None;
    if !d.enabled {
      if present {
        var r := box.Delete(h);
        reply := Some(r);
        var out := Outcome(r, "delete", Deleted);
        action, message := out.0, out.1;
      } else {
        action, message := Absent, NoMessage;
      }
    } else if present {
      var r := box.Modify(h, Wanted(d));
      reply := Some(r);
      var out := Outcome(r, "modify", Updated);
      action, message := out.0, out.1;
    } else {
      var r := box.Add(d.password, Wanted(d));
      reply := Some(r);
      var out := Outcome(r, "add", Created);
      action, message := out.0, out.1;
    }
  }

  ghost predicate SameUsers(users: seq<Desired>, applied: seq<Applied>) {
    |applied| == |users| && SameUsersSoFar(users, applied)
  }

  ghost predicate SameUsersSoFar(users: seq<Desired>, applied: seq<Applied>) {
    && |applied| <= |users|
    && forall i :: 0 <= i < |applied| ==>
         applied[i].id == users[i].id && applied[i].name == users[i].name && applied[i].hash == HashOf(users[i])
  }

  // Where an obedient box stands after the commands for `users` on top of state `start`.
  ghost predicate Pushed(start: map<Hash, Limits>, users: seq<Desired>, now: map<Hash, Limits>) {
    forall h ::
      match DesiredFor(users, h)
      case Some(d) => PushedEntry(d, h in start, Lookup(now, h))
      case None => Lookup(now, h) == Lookup(start, h)
  }

  ghost predicate ExpectedActions(start: map<Hash, Limits>, users: seq<Desired>, applied: seq<Applied>) {
    |applied| == |users| && ExpectedSoFar(start, users, applied)
  }

  ghost predicate ExpectedSoFar(start: map<Hash, Limits>, users: seq<Desired>, applied: seq<Applied>) {
    && |applied| <= |users|
    && forall i :: 0 <= i < |applied| ==>
         applied[i].action == ExpectedAction(users[i], HashOf(users[i]) in start) && applied[i].message == NoMessage
  }

  lemma PushOneMore(start: map<Hash, Limits>, users: seq<Desired>, i: nat, was: map<Hash, Limits>, now: map<Hash, Limits>)
    requires i < |users| && Pushed(start, users[..i], was)
    requires PushedEntry(users[i], HashOf(users[i]) in start, Lookup(now, HashOf(users[i])))
    requires forall h :: h != HashOf(users[i]) ==> Lookup(now, h) == Lookup(was, h)
    ensures Pushed(start, users[..i + 1], now)
  {
    assert users[..i + 1][..i] == users[..i];
  }

  lemma StillUntouched(start: map<Hash, Limits>, users: seq<Desired>, i: nat, now: map<Hash, Limits>)
    requires i < |users| && Distinct(users) && Pushed(start, users[..i], now)
    ensures Lookup(now, HashOf(users[i])) == Lookup(start, HashOf(users[i]))
  {
    DesiredForSound(users[..i], HashOf(users[i]));
  }

  function RowExchanges(users: seq<Desired>, live: map<Option<Hash>, LiveUser>, replies: seq<Option<Reply>>): seq<Exchange>
    requires |replies| == |users|
  {
    if users == [] then []
    else
      var n := |users| - 1;
      RowExchanges(users[..n], live, replies[..n]) + RowExchange(users[n], Some(HashOf(users[n])) in live, replies[n])
  }

  // There is a reply for exactly the rows that need a command.
  ghost predicate Asked(users: seq<Desired>, live: map<Option<Hash>, LiveUser>, replies: seq<Option<Reply>>) {
    && |replies| == |users|
    && forall i :: 0 <= i < |users| ==>
         (replies[i].Some? <==> RowCommand(users[i], Some(HashOf(users[i])) in live).Some?)
  }

  lemma RowExchangesSnoc(users: seq<Desired>, i: nat, live: map<Option<Hash>, LiveUser>, replies: seq<Option<Reply>>,
                         reply: Option<Reply>)
    requires i < |users| && Asked(users[..i], live, replies)
    requires reply.Some? <==> RowCommand(users[i], Some(HashOf(users[i])) in live).Some?
    ensures Asked(users[..i + 1], live, replies + [reply])
    ensures RowExchanges(users[..i + 1], live, replies + [reply])
         == RowExchanges(users[..i], live, replies) + RowExchange(users[i], Some(HashOf(users[i])) in live, reply)
  {
    assert users[..i + 1][..i] == users[..i] && (replies + [reply])[..i] == replies;
  }

  // Where the row commands stand after the first rows, on any box.
  ghost predicate RowsReported(users: seq<Desired>, i: nat, live: map<Option<Hash>, LiveUser>, applied: seq<Applied>,
                               replies: seq<Option<Reply>>)
  {
    && i <= |users| && |applied| == i
    && SameUsersSoFar(users, applied) && AllReported(replies, applied) && Asked(users[..i], live, replies)
    && Fitting(users, live, applied)
  }

  // And on an obedient one.
  ghost predicate RowsPushed(start: map<Hash, Limits>, users: seq<Desired>, i: nat, now: map<Hash, Limits>, applied: seq<Applied>) {
    i <= |users| && Pushed(start, users[..i], now) && ExpectedSoFar(start, users, applied)
  }

  // An entry that is no error reports what its row asks for, given what the box listed at first.
  ghost predicate Fitting(users: seq<Desired>, live: map<Option<Hash>, LiveUser>, applied: seq<Applied>) {
    && |applied| <= |users|
    && forall i :: 0 <= i < |applied| ==>
         applied[i].action.Error? || applied[i].action == ExpectedAction(users[i], Some(HashOf(users[i])) in live)
  }

  lemma RowReported(users: seq<Desired>, i: nat, live: map<Option<Hash>, LiveUser>, applied: seq<Applied>,
                    replies: seq<Option<Reply>>, entry: Applied, reply: Option<Reply>)
    requires i < |users| && RowsReported(users, i, live, applied, replies)
    requires entry.id == users[i].id && entry.name == users[i].name && entry.hash == HashOf(users[i])
    requires Reported(reply, entry.action, entry.message)
    requires entry.action.Error? || entry.action == ExpectedAction(users[i], Some(HashOf(users[i])) in live)
    requires reply.Some? <==> RowCommand(users[i], Some(HashOf(users[i])) in live).Some?
    ensures RowsReported(users, i + 1, live, applied + [entry], replies + [reply])
  {
    assert users[..i + 1] == users[..i] + [users[i]];
  }

  lemma RowPushed(start: map<Hash, Limits>, users: seq<Desired>, i: nat, was: map<Hash, Limits>, now: map<Hash, Limits>,
                  applied: seq<Applied>, entry: Applied)
    requires i < |users| && |applied| == i && RowsPushed(start, users, i, was, applied)
    requires PushedEntry(users[i], HashOf(users[i]) in start, Lookup(now, HashOf(users[i])))
    requires forall h :: h != HashOf(users[i]) ==> Lookup(now, h) == Lookup(was, h)
    requires entry.action == ExpectedAction(users[i], HashOf(users[i]) in start) && entry.message == NoMessage
    ensures RowsPushed(start, users, i + 1, now, applied + [entry])
  {
    PushOneMore(start, users, i, was, now);
  }

  // The row command of one row, on top of those before it.
  method PushRow(box: Box, users: seq<Desired>, i: nat, live: map<Option<Hash>, LiveUser>, applied: seq<Applied>,
                 ghost start: map<Hash, Limits>, ghost replies: seq<Option<Reply>>)
    returns (entry: Applied, ghost reply: Option<Reply>)
    requires box.Valid() && i < |users| && RowsReported(users, i, live, applied, replies)
    requires box.obedient ==> forall h :: Some(h) in live <==> h in start
    requires box.obedient && Distinct(users) ==> RowsPushed(start, users, i, box.users, applied)
    modifies box
    ensures box.Valid()
    ensures RowsReported(users, i + 1, live, applied + [entry], replies + [reply])
    ensures box.log == old(box.log) + RowExchange(users[i], Some(HashOf(users[i])) in live, reply)
    ensures box.obedient && Distinct(users) ==> RowsPushed(start, users, i + 1, box.users, applied + [entry])
  {
    var user := users[i];
    var h := HashOf(user);
    ghost var before := box.users;
    if box.obedient && Distinct(users) {
      StillUntouched(start, users, i, before);
    }
    var action, message;
    action, message, reply := PushUser(box, user, Some(h) in live);
    entry := Applied(user.id, user.name, h, action, message, Lookup(live, Some(h)));
    RowReported(users, i, live, applied, replies, entry, reply);
    if box.obedient && Distinct(users) {
      RowPushed(start, users, i, before, box.users, applied, entry);
    }
  }

  method PushUsers(box: Box, users: seq<Desired>, live: seq<LiveUser>)
    returns (applied: seq<Applied>, ghost replies: seq<Option<Reply>>)
    requires box.Valid()
    requires box.obedient ==> forall h :: Some(h) in ByHash(live) <==> h in box.users
    modifies box
    ensures box.Valid()
    ensures Asked(users, ByHash(live), replies)
    ensures box.log == old(box.log) + RowExchanges(users, ByHash(live), replies)
    ensures SameUsers(users, applied) && AllReported(replies, applied) && Fitting(users, ByHash(live), applied)
    ensures box.obedient && Distinct(users) ==>
      Pushed(old(box.users), users, box.users) && ExpectedActions(old(box.users), users, applied)
  {
    var liveByHash := ByHash(live);
    ghost var start := box.users;
    applied, replies := [], [];
    for i := 0 to |users|
      invariant box.Valid()
      invariant RowsReported(users, i, liveByHash, applied, replies)
      invariant box.log == old(box.log) + RowExchanges(users[..i], liveByHash, replies)
      invariant box.obedient && Distinct(users) ==> RowsPushed(start, users, i, box.users, applied)
    {
      var entry, reply := PushRow(box, users, i, liveByHash, applied, start, replies);
      RowExchangesSnoc(users, i, liveByHash, replies, reply);
      applied, replies := applied + [entry], replies + [reply];
    }
    assert users[..|users|] == users;
  }

  predicate Unmanaged(users: seq<Desired>, u: LiveUser) {
    u.hash.Some? && DesiredFor(users, u.hash.value).None?
  }

  function RemoveCommands(users: seq<Desired>, live: seq<LiveUser>): seq<Command> {
    if live == [] then []
    else
      RemoveCommands(users, live[..|live| - 1]) + RemoveCommand(users, live[|live| - 1])
  }

  function RemoveCommand(users: seq<Desired>, u: LiveUser): seq<Command> {
    if Unmanaged(users, u) then [DeleteUser(u.hash.value)] else []
  }

  method RemoveOne(box: Box, users: seq<Desired>, u: LiveUser) returns (ghost part: seq<Exchange>)
    requires box.Valid()
    modifies box
    ensures box.Valid()
    ensures box.log == old(box.log) + part && Answered(part, RemoveCommand(users, u))
    ensures box.obedient ==> box.users == if Unmanaged(users, u) then old(box.users) - {u.hash.value} else old(box.users)
  {
    part := [];
    if Unmanaged(users, u) {
      var r := box.Delete(u.hash.value);
      part := [Did(DeleteUser(u.hash.value), r)];
    }
  }

  // Live users that match no row are deleted when the server is exclusively ours.
  method RemoveUnmanaged(box: Box, users: seq<Desired>, live: seq<LiveUser>) returns (ghost part: seq<Exchange>)
    requires box.Valid()
    modifies box
    ensures box.Valid()
    ensures box.log == old(box.log) + part && Answered(part, RemoveCommands(users, live))
    ensures box.obedient ==> Removed(users, live, old(box.users), box.users)
  {
    ghost var start := box.users;
    part := [];
    for i := 0 to |live|
      invariant box.Valid()
      invariant box.log == old(box.log) + part && Answered(part, RemoveCommands(users, live[..i]))
      invariant box.obedient ==> box.users == RemovedMap(users, live[..i], start)
    {
      ghost var more := RemoveOne(box, users, live[i]);
      RemoveSnoc(users, live, i, start);
      AnsweredAppend(part, RemoveCommands(users, live[..i]), more, RemoveCommand(users, live[i]));
      Joined(old(box.log), part, more, []);
      part := part + more;
    }
    assert live[..|live|] == live;
    RemovedMapIs(users, live, start);
  }

  lemma RemoveSnoc(users: seq<Desired>, live: seq<LiveUser>, i: nat, start: map<Hash, Limits>)
    requires i < |live|
    ensures RemoveCommands(users, live[..i + 1]) == RemoveCommands(users, live[..i]) + RemoveCommand(users, live[i])
    ensures RemovedMap(users, live[..i + 1], start)
         == if Unmanaged(users, live[i]) then RemovedMap(users, live[..i], start) - {live[i].hash.value}
            else RemovedMap(users, live[..i], start)
  {
    assert live[..i + 1][..i] == live[..i];
  }

  // The listed users without a row are gone, the others as before.
  ghost predicate Removed(users: seq<Desired>, live: seq<LiveUser>, before: map<Hash, Limits>, now: map<Hash, Limits>) {
    forall h :: Lookup(now, h) ==
      if ListedHash(live, h) && DesiredFor(users, h).None? then None else Lookup(before, h)
  }

  function RemovedMap(users: seq<Desired>, live: seq<LiveUser>, before: map<Hash, Limits>): map<Hash, Limits> {
    if live == [] then before
    else
      var u, rest := live[|live| - 1], RemovedMap(users, live[..|live| - 1], before);
      if Unmanaged(users, u) then rest - {u.hash.value} else rest
  }

  lemma {:induction false} RemovedMapIs(users: seq<Desired>, live: seq<LiveUser>, before: map<Hash, Limits>)
    ensures Removed(users, live, before, RemovedMap(users, live, before))
  {
    if live != [] {
      var n := |live| - 1;
      RemovedMapIs(users, live[..n], before);
      assert live == live[..n] + [live[n]];
      ListedSnoc(live[..n], live[n]);
    }
  }

  // ---- Verification against the box -----------------------------------------------------

  /** The verdict on one entry once the re-read says whether its user is on the box. */
  function Judge(action: Action, present: bool): Action {
    if (action.Created? || action.Updated?) && !present then Error
    else if action.Deleted? && present then Error
    else action
  }

  function OrElse(m: Message, fallback: Message): Message {
    if m == NoMessage then fallback else m
  }

  function Verified(item: Applied, reread: map<Option<Hash>, LiveUser>): Applied {
    var present := Some(item.hash) in reread;
    var action := Judge(item.action, present);
    var message :=
      if action == item.action then item.message
      else OrElse(item.message, if present then StillPresent else NotPresent);
    item.(action := action, message := message, stats := if present then Some(reread[Some(item.hash)]) else item.stats)
  }

  predicate NeedsRepair(item: Applied, users: seq<Desired>, reread: map<Option<Hash>, LiveUser>) {
    var want := DesiredFor(users, item.hash);
    && Some(item.hash) in reread
    && want.Some? && want.value.enabled
    && (item.action.Created? || item.action.Updated?)
    && reread[Some(item.hash)].limits.ip != Max(0, want.value.ipLimit)
  }

  // Repairs refresh stats and may add a note, but change no verdict and drop no message.
  ghost predicate SameVerdicts(a: seq<Applied>, b: seq<Applied>) {
    && |a| == |b|
    && forall i :: 0 <= i < |a| ==>
         && b[i].(message := a[i].message, stats := a[i].stats) == a[i]
         && (a[i].message != NoMessage ==> b[i].message == a[i].message)
  }

  ghost predicate ToRepair(applied: seq<Applied>, repairs: seq<nat>, h: Hash) {
    exists k :: 0 <= k < |repairs| && repairs[k] < |applied| && applied[repairs[k]].hash == h
  }

  ghost predicate RepairsKnown(users: seq<Desired>, applied: seq<Applied>, repairs: seq<nat>) {
    forall k :: 0 <= k < |repairs| ==> repairs[k] < |applied| && DesiredFor(users, applied[repairs[k]].hash).Some?
  }

  ghost predicate Repaired(users: seq<Desired>, applied: seq<Applied>, repairs: seq<nat>,
                           before: map<Hash, Limits>, now: map<Hash, Limits>)
  {
    forall h ::
      if ToRepair(applied, repairs, h) && DesiredFor(users, h).Some?
      then Lookup(now, h) == Some(Wanted(DesiredFor(users, h).value))
      else Lookup(now, h) == Lookup(before, h)
  }

  function RepairCommands(users: seq<Desired>, applied: seq<Applied>, repairs: seq<nat>): (r: seq<Command>)
    requires RepairsKnown(users, applied, repairs)
    ensures |r| == |repairs|
    ensures forall k :: 0 <= k < |repairs| ==>
      var h := applied[repairs[k]].hash; r[k] == ModifyUser(h, Wanted(DesiredFor(users, h).value))
  {
    seq(|repairs|, k requires 0 <= k < |repairs| =>
      var h := applied[repairs[k]].hash; ModifyUser(h, Wanted(DesiredFor(users, h).value)))
  }

  // One Modify for every repair; it applies the ip limit unconditionally.
  method SendRepairs(box: Box, users: seq<Desired>, applied: seq<Applied>, repairs: seq<nat>)
    returns (ghost part: seq<Exchange>)
    requires box.Valid() && RepairsKnown(users, applied, repairs)
    modifies box
    ensures box.Valid()
    ensures box.log == old(box.log) + part && Answered(part, RepairCommands(users, applied, repairs))
    ensures box.obedient && (forall h :: ToRepair(applied, repairs, h) ==> h in old(box.users)) ==>
      Repaired(users, applied, repairs, old(box.users), box.users)
  {
    ghost var start := box.users;
    ghost var sound := box.obedient && forall h :: ToRepair(applied, repairs, h) ==> h in start;
    part := [];
    for k := 0 to |repairs|
      invariant box.Valid()
      invariant box.log == old(box.log) + part && |part| == k
      invariant forall j :: 0 <= j < k ==> part[j].Did? && part[j].command == RepairCommands(users, applied, repairs)[j]
      invariant sound ==>
        Repaired(users, applied, repairs[..k], start, box.users)
    {
      var h := applied[repairs[k]].hash;
      ghost var before := box.users;
      assert ToRepair(applied, repairs, h);
      if sound {
        RepairedOneMore(users, applied, repairs, k, start, before);
      }
      var r := box.Modify(h, Wanted(DesiredFor(users, h).value));
      part := part + [Did(ModifyUser(h, Wanted(DesiredFor(users, h).value)), r)];
    }
    assert repairs[..|repairs|] == repairs;
  }

  // One more repair, of a user that is on the box.
  lemma RepairedOneMore(users: seq<Desired>, applied: seq<Applied>, repairs: seq<nat>, k: nat,
                        start: map<Hash, Limits>, was: map<Hash, Limits>)
    requires k < |repairs| && RepairsKnown(users, applied, repairs)
    requires Repaired(users, applied, repairs[..k], start, was) && applied[repairs[k]].hash in start
    ensures var h := applied[repairs[k]].hash;
      h in was && Repaired(users, applied, repairs[..k + 1], start, was[h := Wanted(DesiredFor(users, h).value)])
  {
    ToRepairSnoc(applied, repairs, k);
    assert Lookup(was, applied[repairs[k]].hash).Some?;
  }

  lemma ToRepairSnoc(applied: seq<Applied>, repairs: seq<nat>, k: nat)
    requires k < |repairs| && repairs[k] < |applied|
    ensures forall h ::
      ToRepair(applied, repairs[..k + 1], h) <==> ToRepair(applied, repairs[..k], h) || applied[repairs[k]].hash == h
  {
    forall h
      ensures ToRepair(applied, repairs[..k + 1], h) <==> ToRepair(applied, repairs[..k], h) || applied[repairs[k]].hash == h
    {
      var longer, shorter := repairs[..k + 1], repairs[..k];
      assert longer[k] == repairs[k];
      if ToRepair(applied, shorter, h) {
        var j :| 0 <= j < |shorter| && shorter[j] < |applied| && applied[shorter[j]].hash == h;
        assert longer[j] == shorter[j];
      }
      if ToRepair(applied, longer, h) && applied[repairs[k]].hash != h {
        var j :| 0 <= j < |longer| && longer[j] < |applied| && applied[longer[j]].hash == h;
        assert longer[j] == shorter[j];
      }
    }
  }

  function Recheck(item: Applied, want: Desired, check: map<Option<Hash>, LiveUser>): Applied {
    var s := Lookup(check, Some(item.hash));
    var seen := if s.Some? then item.(stats := s) else item;
    if s.None? || s.value.limits.ip != Max(0, want.ipLimit) then seen.(message := OrElse(seen.message, IpNotApplied))
    else seen
  }

  // A limit that still did not apply leaves a note, unless the entry has one; nothing else does.
  lemma RecheckNotes(item: Applied, want: Desired, check: seq<LiveUser>)
    ensures var again := Recheck(item, want, ByHash(check));
      var seen := Lookup(ByHash(check), Some(item.hash));
      var applies := seen.Some? && seen.value.limits.ip == (if want.ipLimit > 0 then want.ipLimit else 0);
      && again.action == item.action && again.hash == item.hash
      && again.message == (if item.message != NoMessage || applies then item.message else IpNotApplied)
      && (ListedHash(check, item.hash) ==> again.stats.Some? && again.stats.value in check && again.stats.value.hash == Some(item.hash))
      && (!ListedHash(check, item.hash) ==> again.stats == item.stats)
  {
    ByHashSound(check, Some(item.hash));
  }

  ghost predicate Rechecked(users: seq<Desired>, applied: seq<Applied>, repairs: seq<nat>, check: seq<LiveUser>,
                            repaired: seq<Applied>)
    requires RepairsKnown(users, applied, repairs)
  {
    && |repaired| == |applied|
    && forall i :: 0 <= i < |applied| ==>
         if i in repairs then repaired[i] == Recheck(applied[i], DesiredFor(users, applied[i].hash).value, ByHash(check))
         else repaired[i] == applied[i]
  }

  // After the repairs, a second listing refreshes the repaired entries; a limit that still did
  // not apply is only noted.
  method RecheckRepairs(users: seq<Desired>, applied: seq<Applied>, repairs: seq<nat>, check: seq<LiveUser>)
    returns (repaired: seq<Applied>)
    requires RepairsKnown(users, applied, repairs)
    requires forall j, k :: 0 <= j < k < |repairs| ==> repairs[j] != repairs[k]
    ensures Rechecked(users, applied, repairs, check, repaired)
  {
    var index := ByHash(check);
    repaired := applied;
    for k := 0 to |repairs|
      invariant Rechecked(users, applied, repairs[..k], check, repaired)
    {
      var i := repairs[k];
      assert i !in repairs[..k];
      repaired := repaired[i := Recheck(repaired[i], DesiredFor(users, repaired[i].hash).value, index)];
      assert repairs[..k + 1] == repairs[..k] + [i];
    }
    assert repairs[..|repairs|] == repairs;
  }

  // Only users with a desired row, and those in the state their own command leaves.
  ghost predicate PushedRows(start: map<Hash, Limits>, users: seq<Desired>, now: map<Hash, Limits>) {
    forall h :: DesiredFor(users, h).Some? ==> PushedEntry(DesiredFor(users, h).value, h in start, Lookup(now, h))
  }

  ghost predicate Settled(users: seq<Desired>, before: map<Hash, Limits>, now: map<Hash, Limits>) {
    forall h :: Lookup(now, h) ==
      match DesiredFor(users, h)
      case Some(d) => if d.enabled then Some(Wanted(d)) else None
      case None => Lookup(before, h)
  }

  ghost predicate TrueStats(users: seq<Desired>, applied: seq<Applied>) {
    && |applied| == |users|
    && forall i :: 0 <= i < |users| && users[i].enabled ==>
         applied[i].stats.Some? && applied[i].stats.value.limits == Wanted(users[i])
  }

  // One entry against a truthful re-read: its verdict stands, and its stats are the box's.
  lemma VerifiedTruth(start: map<Hash, Limits>, users: seq<Desired>, applied: seq<Applied>, i: nat,
                      live: seq<LiveUser>, now: map<Hash, Limits>)
    requires SameUsers(users, applied) && Distinct(users) && i < |users|
    requires PushedRows(start, users, now) && ExpectedActions(start, users, applied) && Lists(live, now)
    ensures var item := Verified(applied[i], ByHash(live));
      && item.action == applied[i].action && item.message == NoMessage
      && (users[i].enabled ==>
            && applied[i].hash in now && item.stats.Some? && item.stats.value.limits == now[applied[i].hash]
            && (!NeedsRepair(item, users, ByHash(live)) ==> now[applied[i].hash] == Wanted(users[i])))
      && (!users[i].enabled ==> !NeedsRepair(item, users, ByHash(live)))
  {
    var h := applied[i].hash;
    DesiredForAt(users, i);
    ByHashOfTruth(live, now, h);
    assert PushedEntry(users[i], h in start, Lookup(now, h));
  }

  // Judging every entry, and collecting those whose ip limit the box does not have.
  method JudgeAll(users: seq<Desired>, applied: seq<Applied>, live: seq<LiveUser>)
    returns (judged: seq<Applied>, repairs: seq<nat>)
    ensures |judged| == |applied|
    ensures forall i :: 0 <= i < |applied| ==> judged[i] == Verified(applied[i], ByHash(live))
    ensures forall k :: 0 <= k < |repairs| ==> repairs[k] < |applied|
    ensures forall i :: 0 <= i < |applied| ==> (i in repairs <==> NeedsRepair(judged[i], users, ByHash(live)))
    ensures forall j, k :: 0 <= j < k < |repairs| ==> repairs[j] != repairs[k]
  {
    var index := ByHash(live);
    judged, repairs := [], [];
    for i := 0 to |applied|
      invariant |judged| == i
      invariant forall j :: 0 <= j < i ==> judged[j] == Verified(applied[j], index)
      invariant forall k :: 0 <= k < |repairs| ==> repairs[k] < i
      invariant forall j :: 0 <= j < i ==> (j in repairs <==> NeedsRepair(judged[j], users, index))
      invariant forall j, k :: 0 <= j < k < |repairs| ==> repairs[j] != repairs[k]
    {
      var item := Verified(applied[i], index);
      judged := judged + [item];
      if NeedsRepair(item, users, index) {
        repairs := repairs + [i];
      }
    }
  }

  // Verdicts against a listing: the action of each entry follows from whether its user is listed.
  ghost predicate Judged(applied: seq<Applied>, live: seq<LiveUser>, judged: seq<Applied>) {
    && |judged| == |applied|
    && forall i :: 0 <= i < |applied| ==>
         && judged[i].action == Judge(applied[i].action, ListedHash(live, applied[i].hash))
         && (applied[i].message != NoMessage || judged[i].action != applied[i].action ==> judged[i].message != NoMessage)
  }

  lemma JudgedSound(applied: seq<Applied>, live: seq<LiveUser>, judged: seq<Applied>)
    requires |judged| == |applied| && forall i :: 0 <= i < |applied| ==> judged[i] == Verified(applied[i], ByHash(live))
    ensures Judged(applied, live, judged)
  {
    forall i | 0 <= i < |applied|
      ensures judged[i].action == Judge(applied[i].action, ListedHash(live, applied[i].hash))
      ensures applied[i].message != NoMessage || judged[i].action != applied[i].action ==> judged[i].message != NoMessage
    {
      ByHashSound(live, Some(applied[i].hash));
    }
  }

  ghost predicate Sound(box: Box, start: map<Hash, Limits>, users: seq<Desired>, applied: seq<Applied>)
    reads box
  {
    && box.obedient && Distinct(users) && PushedRows(start, users, box.users) && ExpectedActions(start, users, applied)
  }

  // What the repairs make of the state the verifying listing saw.
  lemma RepairsSettle(start: map<Hash, Limits>, users: seq<Desired>, applied: seq<Applied>, judged: seq<Applied>,
                      repairs: seq<nat>, live: seq<LiveUser>, before: map<Hash, Limits>, now: map<Hash, Limits>)
    requires SameUsers(users, applied) && Distinct(users)
    requires PushedRows(start, users, before) && ExpectedActions(start, users, applied) && Lists(live, before)
    requires |judged| == |applied| && forall i :: 0 <= i < |applied| ==> judged[i] == Verified(applied[i], ByHash(live))
    requires forall i :: 0 <= i < |applied| ==> (i in repairs <==> NeedsRepair(judged[i], users, ByHash(live)))
    requires Repaired(users, judged, repairs, before, now)
    ensures Settled(users, before, now)
  {
    forall h ensures Lookup(now, h) ==
        match DesiredFor(users, h)
        case Some(d) => if d.enabled then Some(Wanted(d)) else None
        case None => Lookup(before, h)
    {
      DesiredForSound(users, h);
      if i :| 0 <= i < |users| && HashOf(users[i]) == h {
        DesiredForAt(users, i);
        VerifiedTruth(start, users, applied, i, live, before);
        assert PushedEntry(users[i], h in start, Lookup(before, h));
        if i in repairs {
          var k :| 0 <= k < |repairs| && repairs[k] == i;
          assert judged[repairs[k]].hash == h;
        } else {
          assert forall k :: 0 <= k < |judged| && judged[k].hash == h ==> k == i;
          assert !ToRepair(judged, repairs, h);
        }
      }
    }
  }

  // Everything a repair touches is on the box when the verifying listing is truthful.
  lemma RepairsPresent(users: seq<Desired>, judged: seq<Applied>, repairs: seq<nat>, live: seq<LiveUser>,
                       before: map<Hash, Limits>)
    requires Lists(live, before)
    requires forall i :: 0 <= i < |judged| && i in repairs ==> NeedsRepair(judged[i], users, ByHash(live))
    ensures forall h :: ToRepair(judged, repairs, h) ==> h in before
  {
    forall h | ToRepair(judged, repairs, h) ensures h in before {
      var k :| 0 <= k < |repairs| && repairs[k] < |judged| && judged[repairs[k]].hash == h;
      assert NeedsRepair(judged[repairs[k]], users, ByHash(live));
      ByHashOfTruth(live, before, h);
    }
  }

  // With every listing truthful, each verdict is the expected one and each enabled entry
  // reports the limits the box ends with.
  lemma VerdictsHold(start: map<Hash, Limits>, users: seq<Desired>, applied: seq<Applied>, judged: seq<Applied>,
                     repairs: seq<nat>, live: seq<LiveUser>, before: map<Hash, Limits>, now: map<Hash, Limits>,
                     check: seq<LiveUser>, verified: seq<Applied>)
    requires SameUsers(users, applied) && Distinct(users)
    requires PushedRows(start, users, before) && ExpectedActions(start, users, applied) && Lists(live, before)
    requires |judged| == |applied| && forall i :: 0 <= i < |applied| ==> judged[i] == Verified(applied[i], ByHash(live))
    requires forall i :: 0 <= i < |applied| ==> (i in repairs <==> NeedsRepair(judged[i], users, ByHash(live)))
    requires Settled(users, before, now)
    requires RepairsKnown(users, judged, repairs) && Rechecked(users, judged, repairs, check, verified)
    requires repairs != [] ==> Lists(check, now)
    ensures ExpectedActions(start, users, verified) && TrueStats(users, verified)
  {
    forall i | 0 <= i < |users|
      ensures verified[i].message == NoMessage && verified[i].action == applied[i].action
      ensures users[i].enabled ==> verified[i].stats.Some? && verified[i].stats.value.limits == Wanted(users[i])
    {
      var h := applied[i].hash;
      VerifiedTruth(start, users, applied, i, live, before);
      DesiredForAt(users, i);
      assert Lookup(now, h) == if users[i].enabled then Some(Wanted(users[i])) else None;
      if i in repairs {
        ByHashOfTruth(check, now, h);
      }
    }
  }

  // What the second listing makes of the verdicts.
  ghost predicate Checked(users: seq<Desired>, judged: seq<Applied>, repairs: seq<nat>, check: Listing, verified: seq<Applied>)
    requires RepairsKnown(users, judged, repairs)
  {
    if check.Listed? then Rechecked(users, judged, repairs, check.users, verified) else verified == judged
  }

  // The repair commands and the second listing, if there is anything to repair.
  method RepairIpLimits(box: Box, users: seq<Desired>, judged: seq<Applied>, repairs: seq<nat>)
    returns (verified: seq<Applied>, ghost check: seq<LiveUser>, ghost part: seq<Exchange>)
    requires box.Valid() && RepairsKnown(users, judged, repairs)
    requires forall j, k :: 0 <= j < k < |repairs| ==> repairs[j] != repairs[k]
    modifies box
    ensures box.Valid()
    ensures box.log == old(box.log) + part
    ensures if repairs == [] then part == [] else
      && part != [] && Answered(part[..|part| - 1], RepairCommands(users, judged, repairs)) && part[|part| - 1].Saw?
      && Checked(users, judged, repairs, part[|part| - 1].listing, verified)
    ensures SameVerdicts(judged, verified)
    ensures box.obedient && (forall h :: ToRepair(judged, repairs, h) ==> h in old(box.users)) ==>
      && Repaired(users, judged, repairs, old(box.users), box.users)
      && Rechecked(users, judged, repairs, check, verified)
      && (repairs != [] ==> Lists(check, box.users))
  {
    verified, check, part := judged, [], [];
    if repairs != [] {
      part := SendRepairs(box, users, judged, repairs);
      ghost var sent := part;
      var listing := box.List();
      part := part + [Saw(listing)];
      assert part[..|part| - 1] == sent;
      if listing.Listed? {
        check := listing.users;
        verified := RecheckRepairs(users, judged, repairs, listing.users);
      }
    } else {
      assert forall h :: !ToRepair(judged, repairs, h);
    }
  }

  // The entry's repair went over the connection.
  ghost predicate RepairSent(part: seq<Exchange>, users: seq<Desired>, h: Hash) {
    exists k :: 0 <= k < |part| && part[k].Did? && DesiredFor(users, h).Some?
      && part[k].command == ModifyUser(h, Wanted(DesiredFor(users, h).value))
  }

  // Exactly the entries whose ip limit the re-read shows wrong are repaired, all limits at once;
  // after that the box is listed once more.
  ghost predicate RepairsSent(part: seq<Exchange>, users: seq<Desired>, applied: seq<Applied>, reread: seq<LiveUser>) {
    && (part != [] ==> part[|part| - 1].Saw?)
    && (forall k :: 0 <= k < |part| - 1 ==> part[k].Did? && RepairOf(part[k].command, users, applied, reread))
    && (forall i :: 0 <= i < |applied| && NeedsRepair(applied[i], users, ByHash(reread)) ==> RepairSent(part, users, applied[i].hash))
  }

  ghost predicate RepairOf(c: Command, users: seq<Desired>, applied: seq<Applied>, reread: seq<LiveUser>) {
    exists i :: 0 <= i < |applied| && NeedsRepair(applied[i], users, ByHash(reread))
      && c == ModifyUser(applied[i].hash, Wanted(DesiredFor(users, applied[i].hash).value))
  }

  lemma RepairsAreSent(part: seq<Exchange>, users: seq<Desired>, judged: seq<Applied>, repairs: seq<nat>,
                       verified: seq<Applied>, reread: seq<LiveUser>)
    requires RepairsKnown(users, judged, repairs) && SameVerdicts(judged, verified)
    requires forall i :: 0 <= i < |judged| ==> (i in repairs <==> NeedsRepair(judged[i], users, ByHash(reread)))
    requires if repairs == [] then part == [] else
      part != [] && Answered(part[..|part| - 1], RepairCommands(users, judged, repairs)) && part[|part| - 1].Saw?
    ensures RepairsSent(part, users, verified, reread)
  {
    forall i | 0 <= i < |verified| ensures NeedsRepair(verified[i], users, ByHash(reread)) <==> i in repairs {
      assert verified[i].hash == judged[i].hash && verified[i].action == judged[i].action;
    }
    forall k | 0 <= k < |part| - 1 ensures part[k].Did? && RepairOf(part[k].command, users, verified, reread) {
      assert part[..|part| - 1][k] == part[k];
      assert repairs[k] in repairs;
    }
    forall i | 0 <= i < |verified| && i in repairs ensures RepairSent(part, users, verified[i].hash) {
      var k :| 0 <= k < |repairs| && repairs[k] == i;
      assert part[..|part| - 1][k] == part[k];
    }
  }

  // The re-read, the verdicts it changes and the repairs. `reread` is what the box listed first,
  // and `start` the state the pushing commands began from.
  method VerifyAndRepair(box: Box, users: seq<Desired>, applied: seq<Applied>, ghost start: map<Hash, Limits>)
    returns (verified: seq<Applied>, ghost reread: Listing, ghost repairing: seq<Exchange>)
    requires box.Valid()
    requires SameUsers(users, applied)
    modifies box
    ensures box.Valid()
    ensures box.log == old(box.log) + ([Saw(reread)] + repairing)
    ensures SameUsers(users, verified)
    ensures reread.ListFailed? ==> verified == applied && repairing == []
    ensures reread.Listed? ==> Judged(applied, reread.users, verified) && RepairsSent(repairing, users, verified, reread.users)
    ensures old(Sound(box, start, users, applied)) ==>
      Settled(users, old(box.users), box.users) && ExpectedActions(start, users, verified) && TrueStats(users, verified)
  {
    var listing := box.List();
    reread, repairing := listing, [];
    if listing.ListFailed? {
      return applied, listing, [];
    }
    verified, repairing := JudgeAndRepair(box, users, applied, listing.users, start);
    Joined(old(box.log), [Saw(reread)], repairing, []);
  }

  // The verdicts after a re-read, and the repairs they ask for.
  method JudgeAndRepair(box: Box, users: seq<Desired>, applied: seq<Applied>, live: seq<LiveUser>,
                        ghost start: map<Hash, Limits>)
    returns (verified: seq<Applied>, ghost repairing: seq<Exchange>)
    requires box.Valid() && SameUsers(users, applied)
    modifies box
    ensures box.Valid()
    ensures box.log == old(box.log) + repairing
    ensures SameUsers(users, verified) && Judged(applied, live, verified)
    ensures RepairsSent(repairing, users, verified, live)
    ensures old(Sound(box, start, users, applied)) && Lists(live, old(box.users)) ==>
      Settled(users, old(box.users), box.users) && ExpectedActions(start, users, verified) && TrueStats(users, verified)
  {
    ghost var before := box.users;
    ghost var sound := Sound(box, start, users, applied) && Lists(live, before);
    var judged, repairs := JudgeAll(users, applied, live);
    RepairsAreKnown(users, applied, judged, repairs, live);
    if sound {
      RepairsPresent(users, judged, repairs, live, before);
    }
    ghost var check;
    verified, check, repairing := RepairIpLimits(box, users, judged, repairs);
    RepairsAreSent(repairing, users, judged, repairs, verified, live);
    RepairsKeepVerdicts(users, applied, live, judged, verified);
    if sound {
      RepairsSettle(start, users, applied, judged, repairs, live, before, box.users);
      VerdictsHold(start, users, applied, judged, repairs, live, before, box.users, check, verified);
    }
  }

  lemma RepairsAreKnown(users: seq<Desired>, applied: seq<Applied>, judged: seq<Applied>, repairs: seq<nat>, live: seq<LiveUser>)
    requires |judged| == |applied| && forall k :: 0 <= k < |repairs| ==> repairs[k] < |applied|
    requires forall i :: 0 <= i < |applied| ==> (i in repairs <==> NeedsRepair(judged[i], users, ByHash(live)))
    ensures RepairsKnown(users, judged, repairs)
  {
    forall k | 0 <= k < |repairs| ensures DesiredFor(users, judged[repairs[k]].hash).Some? {
      assert repairs[k] in repairs;
    }
  }

  lemma RepairsKeepVerdicts(users: seq<Desired>, applied: seq<Applied>, live: seq<LiveUser>, judged: seq<Applied>,
                            verified: seq<Applied>)
    requires SameUsers(users, applied) && |judged| == |applied|
    requires forall i :: 0 <= i < |applied| ==> judged[i] == Verified(applied[i], ByHash(live))
    requires SameVerdicts(judged, verified)
    ensures SameUsers(users, verified) && Judged(applied, live, verified)
  {
    JudgedSound(applied, live, judged);
    forall i | 0 <= i < |applied|
      ensures verified[i].action == judged[i].action && verified[i].hash == applied[i].hash
      ensures verified[i].id == applied[i].id && verified[i].name == applied[i].name
    {
      assert verified[i].(message := judged[i].message, stats := judged[i].stats) == judged[i];
    }
  }

  // ---- The whole run --------------------------------------------------------------------

  // No entry claims a user the box does not list, nor the removal of one it does.
  ghost predicate NoFalseVerdict(applied: seq<Applied>, live: seq<LiveUser>) {
    forall i :: 0 <= i < |applied| ==>
      && (applied[i].action.Created? || applied[i].action.Updated? ==> ListedHash(live, applied[i].hash))
      && (applied[i].action.Deleted? ==> !ListedHash(live, applied[i].hash))
  }

  // The removals, if asked for: the listed users without a row.
  ghost predicate RemovedFrom(users: seq<Desired>, o: Options, live: seq<LiveUser>, pushed: map<Hash, Limits>, owned: map<Hash, Limits>) {
    forall h ::
      var gone := o.removeUnmanaged && ListedHash(live, h) && DesiredFor(users, h).None?;
      Lookup(owned, h) == if gone then None else Lookup(pushed, h)
  }

  // The phases, put together.
  lemma PhasesReconcile(before: map<Hash, Limits>, users: seq<Desired>, o: Options, live: seq<LiveUser>,
                        pushed: map<Hash, Limits>, owned: map<Hash, Limits>, after: map<Hash, Limits>)
    requires Lists(live, Cleaned(before, o))
    requires Pushed(Armed(Cleaned(before, o), o), users, pushed)
    requires RemovedFrom(users, o, live, pushed, owned)
    requires Settled(users, owned, after)
    ensures Reconciled(before, users, o, after)
  {
    forall h ensures Lookup(after, h) == Target(before, users, o, h) {
      if DesiredFor(users, h).None? {
        assert Lookup(after, h) == Lookup(owned, h);
        assert Lookup(pushed, h) == Lookup(Armed(Cleaned(before, o), o), h);
        assert h in Cleaned(before, o) ==> ListedHash(live, h);
      }
    }
  }

  /** What went over the connection in one run that got as far as a first listing: the orphan
      cleanup, that listing, the arming, the row commands with their replies, the removals, the
      verifying listing and the repairs. */
  datatype Trace = Trace(cleanup: seq<Exchange>, live: seq<LiveUser>, arming: seq<Exchange>, replies: seq<Option<Reply>>,
                         removing: seq<Exchange>, reread: Listing, repairing: seq<Exchange>)

  function Conversation(t: Trace, users: seq<Desired>): seq<Exchange>
    requires |t.replies| == |users|
  {
    t.cleanup + [Saw(Listed(t.live))] + Rest(t, users)
  }

  function Rest(t: Trace, users: seq<Desired>): seq<Exchange>
    requires |t.replies| == |users|
  {
    t.arming + (RowExchanges(users, ByHash(t.live), t.replies) + t.removing) + ([Saw(t.reread)] + t.repairing)
  }

  // Each part consists of exactly the commands it is there for; the replies are the box's.
  ghost predicate Proper(t: Trace, users: seq<Desired>, o: Options, applied: seq<Applied>) {
    && Answered(t.cleanup, DeleteCommands(o.deleteHashes))
    && Answered(t.arming, ArmCommands(o, t.live))
    && Asked(users, ByHash(t.live), t.replies)
    && Answered(t.removing, if o.removeUnmanaged then RemoveCommands(users, t.live) else [])
    && (t.reread.ListFailed? ==> t.repairing == [])
    && (t.reread.Listed? ==> RepairsSent(t.repairing, users, applied, t.reread.users))
  }

  // The verdicts of a run, held against what the box answered.
  ghost predicate Truthful(t: Trace, users: seq<Desired>, applied: seq<Applied>) {
    AllReported(t.replies, applied) && Fitting(users, ByHash(t.live), applied) && (t.reread.Listed? ==> NoFalseVerdict(applied, t.reread.users))
  }

  // How one row ends on an obedient box: its user, its action and its stats. A user that was there
  // and not an orphan is updated or deleted, any other created or absent.
  ghost predicate EndsAsAsked(before: map<Hash, Limits>, d: Desired, o: Options, after: map<Hash, Limits>, a: Applied) {
    var h := Sha224(d.password);
    var present := h in before && h !in o.deleteHashes;
    && a.id == d.id && a.name == d.name && a.hash == h && a.message == NoMessage
    && if d.enabled then
         && h in after && after[h].up == KibToBytes(d.speedUp) && after[h].down == KibToBytes(d.speedDown)
         && after[h].ip == (if d.ipLimit > 0 then d.ipLimit else 0)
         && a.stats.Some? && a.stats.value.limits == after[h]
         && a.action == (if present then Updated else Created)
       else
         h !in after && a.action == (if present then Deleted else Absent)
  }

  // What an entry that is no error says on any box, given its first listing.
  ghost predicate SaysWhatWasAsked(d: Desired, live: seq<LiveUser>, a: Applied) {
    var present := ListedHash(live, Sha224(d.password));
    && a.id == d.id && a.name == d.name && a.hash == Sha224(d.password)
    && (a.action.Created? ==> d.enabled && !present) && (a.action.Updated? ==> d.enabled && present)
    && (a.action.Deleted? ==> !d.enabled && present) && (a.action.Absent? ==> !d.enabled && !present)
  }

  lemma RowEnds(before: map<Hash, Limits>, users: seq<Desired>, o: Options, after: map<Hash, Limits>, applied: seq<Applied>, i: nat)
    requires Distinct(users) && i < |users| && Reconciled(before, users, o, after) && SameUsers(users, applied)
    requires ExpectedActions(Cleaned(before, o), users, applied) && TrueStats(users, applied)
    ensures EndsAsAsked(before, users[i], o, after, applied[i])
  {
    ReconciledDesired(before, users, o, after, i);
    DesiredForAt(users, i);
    assert Lookup(after, HashOf(users[i])) == Target(before, users, o, HashOf(users[i]));
  }

  lemma RowSays(t: Trace, users: seq<Desired>, applied: seq<Applied>, i: nat)
    requires i < |users| && SameUsers(users, applied) && Truthful(t, users, applied)
    ensures SaysWhatWasAsked(users[i], t.live, applied[i])
  {
    ByHashSound(t.live, Some(HashOf(users[i])));
  }

  /** syncServerUsers. The trace is the box's own log of the run, so on any box, however it answers,
      what is reported as done was answered with exit 0 and stands in the listing that followed. */
  method SyncServerUsers(box: Box, connected: bool, binaryFound: bool, users: seq<Desired>, o: Options)
    returns (result: SyncResult, ghost t: Trace)
    requires box.Valid()
    modifies box
    ensures box.Valid()
    ensures !result.ok ==> result.applied == []
    ensures !connected || !binaryFound ==> !result.ok && box.users == old(box.users) && box.log == old(box.log)
    ensures connected && binaryFound && !result.ok ==>
      box.log == old(box.log) + t.cleanup + [Saw(ListFailed)] && Answered(t.cleanup, DeleteCommands(o.deleteHashes))
    ensures result.ok ==> SameUsers(users, result.applied)
    ensures result.ok ==> Proper(t, users, o, result.applied) && box.log == old(box.log) + Conversation(t, users)
    ensures result.ok ==> Truthful(t, users, result.applied)
    ensures result.ok ==> forall i :: 0 <= i < |users| ==> SaysWhatWasAsked(users[i], t.live, result.applied[i])
    ensures box.obedient && connected && binaryFound ==> result.ok
    ensures box.obedient && result.ok && Distinct(users) ==>
      && Reconciled(old(box.users), users, o, box.users)
      && ExpectedActions(Cleaned(old(box.users), o), users, result.applied)
      && TrueStats(users, result.applied)
      && forall i :: 0 <= i < |users| ==> EndsAsAsked(old(box.users), users[i], o, box.users, result.applied[i])
  {
    result, t := SyncResult(false, []), Trace([], [], [], [], [], ListFailed, []);
    if !connected || !binaryFound {
      return;
    }
    ghost var cleanup := DeleteOrphans(box, o);
    t := t.(cleanup := cleanup);
    var listing := box.List();
    if listing.ListFailed? {
      return;
    }
    var applied;
    applied, t := Reconcile(box, users, o, listing.users, cleanup, old(box.users));
    result := SyncResult(true, applied);
    forall i | 0 <= i < |users| ensures SaysWhatWasAsked(users[i], t.live, applied[i]) {
      RowSays(t, users, applied, i);
    }
    if box.obedient && Distinct(users) {
      forall i | 0 <= i < |users| ensures EndsAsAsked(old(box.users), users[i], o, box.users, applied[i]) {
        RowEnds(old(box.users), users, o, box.users, applied, i);
      }
    }
  }

  // The run after its first listing. `before` is the state it began from.
  method Reconcile(box: Box, users: seq<Desired>, o: Options, live: seq<LiveUser>, ghost cleanup: seq<Exchange>,
                   ghost before: map<Hash, Limits>)
    returns (applied: seq<Applied>, ghost t: Trace)
    requires box.Valid() && Answered(cleanup, DeleteCommands(o.deleteHashes))
    requires box.obedient ==> box.users == Cleaned(before, o) && Lists(live, box.users)
    modifies box
    ensures box.Valid()
    ensures SameUsers(users, applied) && Proper(t, users, o, applied) && Truthful(t, users, applied)
    ensures t.cleanup == cleanup && t.live == live
    ensures old(box.log) + Rest(t, users) == box.log
    ensures box.obedient && Distinct(users) ==>
      && Reconciled(before, users, o, box.users)
      && ExpectedActions(Cleaned(before, o), users, applied)
      && TrueStats(users, applied)
  {
    ghost var cleaned := box.users;
    ghost var arming := ArmImported(box, o, live);
    if box.obedient {
      IndexAfterArming(live, o, cleaned);
    }
    var pushedRows, replies, removing, pushed := PushAndRemove(box, users, o, live);
    ghost var owned := box.users;
    ghost var reread, repairing;
    applied, reread, repairing := VerifyAndRepair(box, users, pushedRows, Armed(cleaned, o));
    t := Trace(cleanup, live, arming, replies, removing, reread, repairing);
    Joined(old(box.log), arming, RowExchanges(users, ByHash(live), replies) + removing, [Saw(reread)] + repairing);
    VerdictsOnAnyBox(t, users, o, pushedRows, applied);
    if box.obedient && Distinct(users) {
      VerdictsOnObedientBox(before, users, o, live, pushed, owned, box.users, applied);
    }
  }

  lemma Joined(log: seq<Exchange>, a: seq<Exchange>, b: seq<Exchange>, c: seq<Exchange>)
    ensures log + (a + b + c) == log + a + b + c
  {
  }

  lemma VerdictsOnAnyBox(t: Trace, users: seq<Desired>, o: Options, pushed: seq<Applied>, applied: seq<Applied>)
    requires Answered(t.cleanup, DeleteCommands(o.deleteHashes)) && Answered(t.arming, ArmCommands(o, t.live))
    requires Asked(users, ByHash(t.live), t.replies)
    requires Answered(t.removing, if o.removeUnmanaged then RemoveCommands(users, t.live) else [])
    requires SameUsers(users, pushed) && AllReported(t.replies, pushed) && SameUsers(users, applied)
    requires Fitting(users, ByHash(t.live), pushed)
    requires t.reread.ListFailed? ==> applied == pushed && t.repairing == []
    requires t.reread.Listed? ==>
      Judged(pushed, t.reread.users, applied) && RepairsSent(t.repairing, users, applied, t.reread.users)
    ensures Proper(t, users, o, applied) && Truthful(t, users, applied)
  {
    if t.reread.Listed? {
      StillReported(t.replies, users, t.live, pushed, applied, t.reread.users);
    }
  }

  lemma VerdictsOnObedientBox(before: map<Hash, Limits>, users: seq<Desired>, o: Options, live: seq<LiveUser>,
                              pushed: map<Hash, Limits>, owned: map<Hash, Limits>, after: map<Hash, Limits>, applied: seq<Applied>)
    requires Lists(live, Cleaned(before, o))
    requires Pushed(Armed(Cleaned(before, o), o), users, pushed) && RemovedFrom(users, o, live, pushed, owned)
    requires Settled(users, owned, after) && ExpectedActions(Armed(Cleaned(before, o), o), users, applied)
    ensures Reconciled(before, users, o, after) && ExpectedActions(Cleaned(before, o), users, applied)
  {
    PhasesReconcile(before, users, o, live, pushed, owned, after);
    ArmingKeepsUsers(Cleaned(before, o), o, users, applied);
  }

  lemma IndexAfterArming(live: seq<LiveUser>, o: Options, cleaned: map<Hash, Limits>)
    requires Lists(live, cleaned)
    ensures forall h :: Some(h) in ByHash(live) <==> h in Armed(cleaned, o)
  {
    forall h ensures Some(h) in ByHash(live) <==> h in Armed(cleaned, o) {
      ByHashOfTruth(live, cleaned, h);
    }
  }

  // Judging takes success away but never gives it.
  lemma StillReported(replies: seq<Option<Reply>>, users: seq<Desired>, first: seq<LiveUser>, applied: seq<Applied>,
                      judged: seq<Applied>, live: seq<LiveUser>)
    requires AllReported(replies, applied) && Fitting(users, ByHash(first), applied) && Judged(applied, live, judged)
    requires SameUsers(users, applied) && SameUsers(users, judged)
    ensures AllReported(replies, judged) && Fitting(users, ByHash(first), judged) && NoFalseVerdict(judged, live)
  {
  }

  lemma ArmingKeepsUsers(cleaned: map<Hash, Limits>, o: Options, users: seq<Desired>, applied: seq<Applied>)
    requires ExpectedActions(Armed(cleaned, o), users, applied)
    ensures ExpectedActions(cleaned, users, applied)
  {
  }

  // The row commands and, if asked for, the removals. `pushed` is the state in between.
  method PushAndRemove(box: Box, users: seq<Desired>, o: Options, live: seq<LiveUser>)
    returns (applied: seq<Applied>, ghost replies: seq<Option<Reply>>, ghost removing: seq<Exchange>, ghost pushed: map<Hash, Limits>)
    requires box.Valid()
    requires box.obedient ==> forall h :: Some(h) in ByHash(live) <==> h in box.users
    modifies box
    ensures box.Valid()
    ensures Asked(users, ByHash(live), replies)
    ensures Answered(removing, if o.removeUnmanaged then RemoveCommands(users, live) else [])
    ensures box.log == old(box.log) + (RowExchanges(users, ByHash(live), replies) + removing)
    ensures SameUsers(users, applied) && AllReported(replies, applied) && Fitting(users, ByHash(live), applied)
    ensures box.obedient && Distinct(users) ==>
      && Pushed(old(box.users), users, pushed) && Sound(box, old(box.users), users, applied)
      && RemovedFrom(users, o, live, pushed, box.users)
  {
    ghost var start := box.users;
    applied, replies := PushUsers(box, users, live);
    pushed, removing := box.users, [];
    if o.removeUnmanaged {
      removing := RemoveUnmanaged(box, users, live);
    }
    Joined(old(box.log), RowExchanges(users, ByHash(live), replies), removing, []);
    if box.obedient && Distinct(users) {
      RowsStay(start, users, o, live, pushed, box.users);
    }
  }

  // The removals spare the desired rows.
  lemma RowsStay(start: map<Hash, Limits>, users: seq<Desired>, o: Options, live: seq<LiveUser>,
                 pushed: map<Hash, Limits>, owned: map<Hash, Limits>)
    requires Pushed(start, users, pushed)
    requires if o.removeUnmanaged then Removed(users, live, pushed, owned) else owned == pushed
    ensures PushedRows(start, users, owned) && RemovedFrom(users, o, live, pushed, owned)
  {
    forall h | DesiredFor(users, h).Some? ensures PushedEntry(DesiredFor(users, h).value, h in start, Lookup(owned, h)) {
      assert Lookup(owned, h) == Lookup(pushed, h);
    }
  }

  // ---- Whose users a run touches, on any box ----------------------------------------------

  // A command about a desired row, a hash to delete, or a user to arm.
  predicate Own(c: Command, users: seq<Desired>, o: Options) {
    match c
    case AddUser(password, _) => DesiredFor(users, Sha224(password)).Some?
    case ModifyUser(h, _) => DesiredFor(users, h).Some? || ToArm(o, h)
    case DeleteUser(h) => DesiredFor(users, h).Some? || ToDelete(o, h)
  }

  ghost predicate AllOwn(part: seq<Exchange>, users: seq<Desired>, o: Options) {
    forall k :: 0 <= k < |part| && part[k].Did? ==> Own(part[k].command, users, o)
  }

  lemma {:induction false} DeletesAreOwn(hashes: seq<Hash>, users: seq<Desired>, o: Options)
    requires forall i :: 0 <= i < |hashes| ==> hashes[i] in o.deleteHashes
    ensures forall k :: 0 <= k < |DeleteCommands(hashes)| ==> Own(DeleteCommands(hashes)[k], users, o)
  {
    if hashes != [] {
      DeletesAreOwn(hashes[..|hashes| - 1], users, o);
    }
  }

  lemma {:induction false} ArmingsAreOwn(live: seq<LiveUser>, users: seq<Desired>, o: Options)
    ensures forall k :: 0 <= k < |ArmCommands(o, live)| ==> Own(ArmCommands(o, live)[k], users, o)
  {
    if live != [] {
      ArmingsAreOwn(live[..|live| - 1], users, o);
    }
  }

  lemma {:induction false} RowsAreOwn(rows: seq<Desired>, live: map<Option<Hash>, LiveUser>, replies: seq<Option<Reply>>,
                                      users: seq<Desired>, o: Options)
    requires |replies| == |rows| && forall i :: 0 <= i < |rows| ==> DesiredFor(users, HashOf(rows[i])).Some?
    ensures AllOwn(RowExchanges(rows, live, replies), users, o)
  {
    if rows != [] {
      var n := |rows| - 1;
      RowsAreOwn(rows[..n], live, replies[..n], users, o);
    }
  }

  lemma AllOwnAppend(a: seq<Exchange>, b: seq<Exchange>, users: seq<Desired>, o: Options)
    requires AllOwn(a, users, o) && AllOwn(b, users, o)
    ensures AllOwn(a + b, users, o)
  {
  }

  lemma RepairsAreOwn(part: seq<Exchange>, users: seq<Desired>, o: Options, applied: seq<Applied>, reread: seq<LiveUser>)
    requires RepairsSent(part, users, applied, reread)
    ensures AllOwn(part, users, o)
  {
    forall k | 0 <= k < |part| && part[k].Did? ensures Own(part[k].command, users, o) {
      assert k < |part| - 1;
      assert RepairOf(part[k].command, users, applied, reread);
    }
  }

  /** Without removeUnmanaged, whatever the box answers, no command of a run is about a user the
      panel does not own. */
  lemma TouchesOwnUsersOnly(t: Trace, users: seq<Desired>, o: Options, applied: seq<Applied>)
    requires Proper(t, users, o, applied) && !o.removeUnmanaged
    ensures AllOwn(Conversation(t, users), users, o)
  {
    DeletesAreOwn(o.deleteHashes, users, o);
    ArmingsAreOwn(t.live, users, o);
    forall i | 0 <= i < |users| ensures DesiredFor(users, HashOf(users[i])).Some? {
      DesiredForSound(users, HashOf(users[i]));
    }
    RowsAreOwn(users, ByHash(t.live), t.replies, users, o);
    if t.reread.Listed? {
      RepairsAreOwn(t.repairing, users, o, applied, t.reread.users);
    }
    var rows, tail := RowExchanges(users, ByHash(t.live), t.replies) + t.removing, [Saw(t.reread)] + t.repairing;
    AllOwnAppend(t.arming, rows, users, o);
    AllOwnAppend(t.arming + rows, tail, users, o);
    AllOwnAppend(t.cleanup + [Saw(Listed(t.live))], Rest(t, users), users, o);
  }
}
