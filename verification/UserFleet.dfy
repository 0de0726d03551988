/** npanelUserService: pushing panel rows to a box, rotating a password, importing live users. */
module UserFleet {
  import opened Wrappers
  import opened TrojanBox
  import opened Reconciler

  datatype Status = DesiredState | Synced | ApiError

  // One NpanelUser row; managed means the panel holds the password, otherwise it was imported.
  datatype Row = Row(id: int, name: string, password: string, managed: bool, enabled: bool,
                     speedUp: real, speedDown: real, ipLimit: int,
                     remoteHash: Option<Hash>, status: Status, counters: Counters)

  // stats_ip_tracking and stats_ip_limit_sentinel.
  datatype Tracking = Tracking(enabled: bool, sentinel: int)

  const DEFAULT_SENTINEL := 50000

  function Sentinel(cfg: Tracking): int {
    Max(1, if cfg.sentinel == 0 then DEFAULT_SENTINEL else cfg.sentinel)
  }

  /** effectiveIpLimit: the admin's limit wins; without one the sentinel makes the box count. */
  function EffectiveIpLimit(ipLimit: int, cfg: Tracking): int {
    if ipLimit > 0 then ipLimit else if cfg.enabled then Sentinel(cfg) else 0
  }

  /** The ip_limit an import writes for a live limit. */
  function StoredIpLimit(liveLimit: int, cfg: Tracking): (stored: int)
    ensures cfg.sentinel >= 1 ==> stored != cfg.sentinel
    ensures stored != 0 ==> stored == liveLimit
  {
    if liveLimit > 0 && liveLimit != cfg.sentinel then liveLimit else 0
  }

  // The row keeps what the admin meant: an import of a user the panel pushed without a limit stores
  // "no limit" again exactly when the setting at the import is the number the push used. Otherwise
  // that number is stored as if an admin had set it.
  lemma ImportForgetsSentinel(was: Tracking, now: Tracking)
    requires was.enabled
    ensures StoredIpLimit(EffectiveIpLimit(0, was), now) == 0 <==> Sentinel(was) == now.sentinel
    ensures Sentinel(was) != now.sentinel ==> StoredIpLimit(EffectiveIpLimit(0, was), now) == Sentinel(was)
  {
  }

  // The same of a user that was only armed, which takes the setting as it is.
  lemma ImportForgetsArming(was: Tracking, now: Tracking, o: Options)
    requires o.armIpLimit == was.sentinel && ArmLimit(o) > 0
    ensures StoredIpLimit(ArmLimit(o), now) == 0 <==> was.sentinel == now.sentinel
    ensures was.sentinel != now.sentinel ==> StoredIpLimit(ArmLimit(o), now) == was.sentinel
  {
  }

  // A setting that was not edited is forgotten exactly if it is positive.
  lemma UneditedSentinel(cfg: Tracking)
    requires cfg.enabled
    ensures StoredIpLimit(EffectiveIpLimit(0, cfg), cfg) == 0 <==> cfg.sentinel >= 1
  {
  }

  // An edit from one positive setting to another: the old one is stored, pushed or armed.
  lemma EditedSentinelIsStored()
    ensures var was, now := Tracking(true, DEFAULT_SENTINEL), Tracking(true, 60000);
      && StoredIpLimit(EffectiveIpLimit(0, was), now) == DEFAULT_SENTINEL
      && StoredIpLimit(ArmLimit(Options([], [], was.sentinel, false)), now) == DEFAULT_SENTINEL
  {
  }

  // An admin limit survives push and import unless it happens to equal the sentinel of the import.
  lemma ImportKeepsAdminLimit(ipLimit: int, was: Tracking, now: Tracking)
    requires ipLimit > 0
    ensures StoredIpLimit(EffectiveIpLimit(ipLimit, was), now) == ipLimit <==> ipLimit != now.sentinel
  {
  }

  // ---- Pushing --------------------------------------------------------------------------

  predicate Pushable(r: Row) {
    r.managed && r.password != ""
  }

  predicate Armable(r: Row, cfg: Tracking) {
    cfg.enabled && !r.managed && r.remoteHash.Some? && r.remoteHash.value != NO_HASH && r.enabled
  }

  function DesiredOf(r: Row, cfg: Tracking): Desired {
    Desired(r.id, r.name, r.password, r.enabled, r.speedUp, r.speedDown, EffectiveIpLimit(r.ipLimit, cfg))
  }

  function DesiredRows(rows: seq<Row>, cfg: Tracking): seq<Desired> {
    if rows == [] then []
    else DesiredRows(rows[..|rows| - 1], cfg)
         + (if Pushable(rows[|rows| - 1]) then [DesiredOf(rows[|rows| - 1], cfg)] else [])
  }

  function ArmHashes(rows: seq<Row>, cfg: Tracking): seq<Hash> {
    if rows == [] then []
    else ArmHashes(rows[..|rows| - 1], cfg)
         + (if Armable(rows[|rows| - 1], cfg) then [rows[|rows| - 1].remoteHash.value] else [])
  }

  function PushOptions(rows: seq<Row>, cfg: Tracking, deleteHashes: seq<Hash>): Options {
    Options(deleteHashes, ArmHashes(rows, cfg), cfg.sentinel, false)
  }

  // Pushed rows have passwords of their own.
  ghost predicate DistinctPasswords(rows: seq<Row>) {
    forall i, j :: 0 <= i < j < |rows| && Pushable(rows[i]) && Pushable(rows[j]) ==> rows[i].password != rows[j].password
  }

  lemma {:induction false} DesiredRowsSound(rows: seq<Row>, cfg: Tracking)
    ensures forall d :: d in DesiredRows(rows, cfg) <==>
      exists i :: 0 <= i < |rows| && Pushable(rows[i]) && d == DesiredOf(rows[i], cfg)
    ensures DistinctPasswords(rows) ==> Distinct(DesiredRows(rows, cfg))
  {
    if rows != [] {
      var n := |rows| - 1;
      var init, ds := rows[..n], DesiredRows(rows[..n], cfg);
      DesiredRowsSound(init, cfg);
      assert forall i :: 0 <= i < n ==> rows[i] == init[i];
      if DistinctPasswords(rows) && Pushable(rows[n]) {
        forall k | 0 <= k < |ds| ensures HashOf(ds[k]) != Sha224(rows[n].password) {
          assert ds[k] in ds;
          var i :| 0 <= i < |init| && Pushable(init[i]) && ds[k] == DesiredOf(init[i], cfg);
        }
      }
    }
  }

  /** applyLiveStats: status and counters of a pushed row. The ip limit is never part of it. */
  function WithResult(r: Row, a: Applied): Row {
    var s := r.(remoteHash := Some(a.hash), status := if a.action.Error? then ApiError else Synced);
    if a.stats.Some? then s.(counters := a.stats.value.counters) else s
  }

  function AppliedByHash(applied: seq<Applied>): map<Hash, Applied> {
    if applied == [] then map[]
    else var last := applied[|applied| - 1]; AppliedByHash(applied[..|applied| - 1])[last.hash := last]
  }

  lemma {:induction false} AppliedByHashSound(applied: seq<Applied>, h: Hash)
    ensures h in AppliedByHash(applied) <==> exists i :: 0 <= i < |applied| && applied[i].hash == h
    ensures h in AppliedByHash(applied) ==> AppliedByHash(applied)[h] in applied && AppliedByHash(applied)[h].hash == h
  {
    if applied != [] {
      var n := |applied| - 1;
      AppliedByHashSound(applied[..n], h);
      assert applied == applied[..n] + [applied[n]];
      if applied[n].hash != h && exists i :: 0 <= i < |applied| && applied[i].hash == h {
        var i :| 0 <= i < |applied| && applied[i].hash == h;
        assert applied[..n][i].hash == h;
      }
    }
  }

  // A push changes only what the box reported: hash, status, counters.
  ghost predicate SameIntent(a: Row, b: Row) {
    b.(remoteHash := a.remoteHash, status := a.status, counters := a.counters) == a
  }

  ghost predicate Idle(rows: seq<Row>, cfg: Tracking) {
    DesiredRows(rows, cfg) == [] && ArmHashes(rows, cfg) == []
  }

  function Folded(r: Row, ok: bool, byHash: map<Hash, Applied>): Row {
    if !Pushable(r) then r
    else if Sha224(r.password) in byHash then WithResult(r, byHash[Sha224(r.password)])
    else r.(status := if ok then Synced else ApiError)
  }

  method FoldResults(rows: array<Row>, ok: bool, applied: seq<Applied>)
    modifies rows
    ensures forall i :: 0 <= i < rows.Length ==> rows[i] == Folded(old(rows[i]), ok, AppliedByHash(applied))
  {
    var byHash := AppliedByHash(applied);
    for i := 0 to rows.Length
      invariant forall j :: i <= j < rows.Length ==> rows[j] == old(rows[j])
      invariant forall j :: 0 <= j < i ==> rows[j] == Folded(old(rows[j]), ok, byHash)
    {
      rows[i] := Folded(rows[i], ok, byHash);
    }
  }

  // The entry a pushed row takes is one of its own hash.
  lemma FindEntry(rows: seq<Row>, cfg: Tracking, applied: seq<Applied>, i: nat) returns (k: nat)
    requires SameUsers(DesiredRows(rows, cfg), applied)
    requires i < |rows| && Pushable(rows[i])
    ensures k < |applied| && applied[k].hash == Sha224(rows[i].password)
    ensures applied[k].hash in AppliedByHash(applied) && AppliedByHash(applied)[applied[k].hash] == applied[k]
  {
    var h := Sha224(rows[i].password);
    DesiredRowsSound(rows, cfg);
    AppliedByHashSound(applied, h);
    assert DesiredOf(rows[i], cfg) in DesiredRows(rows, cfg);
    var j :| 0 <= j < |applied| && DesiredRows(rows, cfg)[j] == DesiredOf(rows[i], cfg);
    assert applied[j].hash == h;
    k :| 0 <= k < |applied| && applied[k] == AppliedByHash(applied)[h];
  }

  // Every pushed row finds its own entry.
  lemma FoldedFromRun(rows: seq<Row>, cfg: Tracking, applied: seq<Applied>, i: nat)
    requires SameUsers(DesiredRows(rows, cfg), applied)
    requires i < |rows| && Pushable(rows[i])
    ensures var r := Folded(rows[i], true, AppliedByHash(applied));
      && r.remoteHash == Some(Sha224(rows[i].password))
      && (exists k :: 0 <= k < |applied| && applied[k].hash == Sha224(rows[i].password)
                      && (r.counters == if applied[k].stats.Some? then applied[k].stats.value.counters else rows[i].counters)
                      && r.status == if applied[k].action.Error? then ApiError else Synced)
      && ((forall k :: 0 <= k < |applied| ==> !applied[k].action.Error?) ==> r.status == Synced)
  {
    var k := FindEntry(rows, cfg, applied, i);
    assert applied[k].hash == Sha224(rows[i].password);
  }

  // What a push may do to the rows: intent stays, imported rows stay whole, a failed run marks
  // every pushed row, a finished one gives every pushed row its hash.
  ghost predicate Written(was: seq<Row>, now: seq<Row>, ok: bool) {
    && |now| == |was|
    && (forall i :: 0 <= i < |was| ==> SameIntent(was[i], now[i]))
    && (forall i :: 0 <= i < |was| && !Pushable(was[i]) ==> now[i] == was[i])
    && (!ok ==> forall i :: 0 <= i < |was| && Pushable(was[i]) ==> now[i].status == ApiError)
    && (ok ==> forall i :: 0 <= i < |was| && Pushable(was[i]) ==> now[i].remoteHash == Some(Sha224(was[i].password)))
  }

  ghost predicate AllSynced(rows: seq<Row>) {
    forall i :: 0 <= i < |rows| && Pushable(rows[i]) ==> rows[i].status == Synced
  }

  lemma {:induction false} FoldedRows(was: seq<Row>, cfg: Tracking, ok: bool, applied: seq<Applied>, now: seq<Row>)
    requires |now| == |was| && forall i :: 0 <= i < |was| ==> now[i] == Folded(was[i], ok, AppliedByHash(applied))
    requires if ok then SameUsers(DesiredRows(was, cfg), applied) else applied == []
    ensures Written(was, now, ok)
    ensures ok && (forall k :: 0 <= k < |applied| ==> !applied[k].action.Error?) ==> AllSynced(now)
  {
    forall i | 0 <= i < |was| && ok && Pushable(was[i])
      ensures now[i].remoteHash == Some(Sha224(was[i].password))
      ensures (forall k :: 0 <= k < |applied| ==> !applied[k].action.Error?) ==> now[i].status == Synced
    {
      FoldedFromRun(was, cfg, applied, i);
    }
  }

  // What the box said of a desired row that counts as done: exit 0, and it is listed afterwards, or
  // for a disabled one no longer listed; a disabled one that was not there needs no command.
  ghost predicate Earned(d: Desired, reply: Option<Reply>, live: seq<LiveUser>, reread: Listing) {
    if d.enabled then
      reply == Some(Exit(0)) && (reread.Listed? ==> ListedHash(reread.users, HashOf(d)))
    else
      || Some(HashOf(d)) !in ByHash(live)
      || (reply == Some(Exit(0)) && (reread.Listed? ==> !ListedHash(reread.users, HashOf(d))))
  }

  ghost predicate EarnedSync(r: Row, users: seq<Desired>, t: Trace)
    requires |t.replies| == |users|
  {
    r.status == Synced ==>
      exists k :: 0 <= k < |users| && Some(HashOf(users[k])) == r.remoteHash && Earned(users[k], t.replies[k], t.live, t.reread)
  }

  lemma NoErrorIsEarned(users: seq<Desired>, t: Trace, applied: seq<Applied>, k: nat)
    requires SameUsers(users, applied) && Truthful(t, users, applied) && k < |users| && !applied[k].action.Error?
    ensures |t.replies| == |users| && Earned(users[k], t.replies[k], t.live, t.reread)
  {
    assert Reported(t.replies[k], applied[k].action, applied[k].message);
  }

  // No pushed row ends as synced on a box that did not answer and list it so.
  lemma SyncedIsEarned(was: seq<Row>, cfg: Tracking, t: Trace, applied: seq<Applied>, now: seq<Row>, i: nat)
    requires SameUsers(DesiredRows(was, cfg), applied) && Truthful(t, DesiredRows(was, cfg), applied)
    requires i < |was| == |now| && Pushable(was[i]) && now[i] == Folded(was[i], true, AppliedByHash(applied))
    ensures EarnedSync(now[i], DesiredRows(was, cfg), t)
  {
    FoldedFromRun(was, cfg, applied, i);
    if now[i].status == Synced {
      var k :| 0 <= k < |applied| && applied[k].hash == Sha224(was[i].password)
               && now[i].status == if applied[k].action.Error? then ApiError else Synced;
      NoErrorIsEarned(DesiredRows(was, cfg), t, applied, k);
    }
  }

  // A push has nothing to do exactly if no row is managed with a password, and none is imported,
  // enabled and known by hash while tracking is on.
  lemma {:induction false} IdleRows(rows: seq<Row>, cfg: Tracking)
    ensures Idle(rows, cfg) <==> forall i :: 0 <= i < |rows| ==>
      && !(rows[i].managed && rows[i].password != "")
      && !(cfg.enabled && !rows[i].managed && rows[i].enabled && KnownBy(rows[i], rows[i].remoteHash))
  {
    if rows != [] {
      var n := |rows| - 1;
      IdleRows(rows[..n], cfg);
      assert forall i :: 0 <= i < n ==> rows[..n][i] == rows[i];
    }
  }

  predicate KnownBy(r: Row, h: Option<Hash>) {
    h.Some? && r.remoteHash == h && h.value != NO_HASH
  }

  lemma {:induction false} ArmHashesSound(rows: seq<Row>, cfg: Tracking, h: Hash)
    ensures h in ArmHashes(rows, cfg) <==>
      exists i :: 0 <= i < |rows| && cfg.enabled && !rows[i].managed && rows[i].enabled && KnownBy(rows[i], Some(h))
  {
    if rows != [] {
      var n := |rows| - 1;
      ArmHashesSound(rows[..n], cfg, h);
      assert forall i :: 0 <= i < n ==> rows[..n][i] == rows[i];
    }
  }

  // The limits of a row's columns: bytes per second from KiB per second, and the addresses an
  // admin allows, or else what makes the box count them while tracking is on.
  ghost predicate HasLimits(r: Row, cfg: Tracking, l: Limits) {
    && l.up == KibToBytes(r.speedUp) && l.down == KibToBytes(r.speedDown)
    && l.ip ==
       if r.ipLimit > 0 then r.ipLimit
       else if !cfg.enabled then 0
       else if cfg.sentinel == 0 then 50000
       else if cfg.sentinel < 0 then 1
       else cfg.sentinel
  }

  // What a push makes of an obedient box, in the rows' own columns.
  ghost predicate Reaches(before: map<Hash, Limits>, rows: seq<Row>, cfg: Tracking, deletes: seq<Hash>, after: map<Hash, Limits>) {
    && (forall i :: 0 <= i < |rows| && rows[i].managed && rows[i].password != "" ==>
          var h := Sha224(rows[i].password);
          if rows[i].enabled then h in after && HasLimits(rows[i], cfg, after[h]) else h !in after)
    && (forall h :: OfNoRow(rows, h) ==>
          && (h in after <==> h in before && !(h in deletes && h != NO_HASH))
          && (h in after ==> after[h] == before[h].(ip := ImportedIp(rows, cfg, h, before[h].ip))))
  }

  ghost predicate OfNoRow(rows: seq<Row>, h: Hash) {
    forall i :: 0 <= i < |rows| && rows[i].managed && rows[i].password != "" ==> Sha224(rows[i].password) != h
  }

  // An imported, enabled row arms its user if that has no limit yet.
  ghost function ImportedIp(rows: seq<Row>, cfg: Tracking, h: Hash, ip: int): int {
    if ip == 0 && cfg.enabled && cfg.sentinel > 0
       && exists i :: 0 <= i < |rows| && !rows[i].managed && rows[i].enabled && KnownBy(rows[i], Some(h))
    then cfg.sentinel else ip
  }

  lemma PushReaches(before: map<Hash, Limits>, rows: seq<Row>, cfg: Tracking, deletes: seq<Hash>, after: map<Hash, Limits>)
    requires Reconciled(before, DesiredRows(rows, cfg), PushOptions(rows, cfg, deletes), after) && DistinctPasswords(rows)
    ensures Reaches(before, rows, cfg, deletes, after)
  {
    var users, o := DesiredRows(rows, cfg), PushOptions(rows, cfg, deletes);
    DesiredRowsSound(rows, cfg);
    forall i | 0 <= i < |rows| && Pushable(rows[i])
      ensures var h := Sha224(rows[i].password);
        if rows[i].enabled then h in after && HasLimits(rows[i], cfg, after[h]) else h !in after
    {
      assert DesiredOf(rows[i], cfg) in users;
      var k :| 0 <= k < |users| && users[k] == DesiredOf(rows[i], cfg);
      ReconciledDesired(before, users, o, after, k);
    }
    forall h | OfNoRow(rows, h)
      ensures h in after <==> h in before && !(h in deletes && h != NO_HASH)
      ensures h in after ==> after[h] == before[h].(ip := ImportedIp(rows, cfg, h, before[h].ip))
    {
      forall k | 0 <= k < |users| ensures HashOf(users[k]) != h {
        assert users[k] in users;
      }
      ReconciledFrame(before, users, o, after, h);
      ArmHashesSound(rows, cfg, h);
    }
  }

  /** pushUsersToServer. The trace is the box's log of the run; on any box, however it answers, a
      pushed row is synced only on what that log says of its user. */
  method PushUsersToServer(box: Box, connected: bool, binaryFound: bool, rows: array<Row>, cfg: Tracking,
                           deleteHashes: seq<Hash>)
    returns (ok: bool, ghost t: Trace)
    requires box.Valid()
    modifies box, rows
    ensures box.Valid()
    ensures ok && !Idle(old(rows[..]), cfg) ==>
      var users := DesiredRows(old(rows[..]), cfg);
      && |t.replies| == |users| && box.log == old(box.log) + Conversation(t, users)
      && forall i :: 0 <= i < rows.Length && Pushable(old(rows[i])) ==> EarnedSync(rows[i], users, t)
    ensures Written(old(rows[..]), rows[..], ok)
    ensures Idle(old(rows[..]), cfg) ==> ok && box.users == old(box.users) && box.log == old(box.log)
    ensures box.obedient && connected && binaryFound ==> ok
    ensures box.obedient && ok && !Idle(old(rows[..]), cfg) && DistinctPasswords(old(rows[..])) ==>
      && Reconciled(old(box.users), DesiredRows(old(rows[..]), cfg), PushOptions(old(rows[..]), cfg, deleteHashes), box.users)
      && Reaches(old(box.users), old(rows[..]), cfg, deleteHashes, box.users)
      && AllSynced(rows[..])
  {
    ghost var was := rows[..];
    var desired := DesiredRows(rows[..], cfg);
    var o := PushOptions(rows[..], cfg, deleteHashes);
    IdleRows(was, cfg);
    if desired == [] && o.armHashes == [] {
      ok, t := true, Trace([], [], [], [], [], ListFailed, []);
      return;
    }
    ghost var before := box.users;
    if DistinctPasswords(was) {
      DesiredRowsSound(was, cfg);
    }
    var result;
    result, t := SyncServerUsers(box, connected, binaryFound, desired, o);
    ok := result.ok;
    FoldResults(rows, ok, result.applied);
    FoldedRows(was, cfg, ok, result.applied, rows[..]);
    if ok && box.obedient && DistinctPasswords(was) {
      PushReaches(before, was, cfg, deleteHashes, box.users);
    }
    if ok {
      forall i | 0 <= i < rows.Length && Pushable(was[i]) ensures EarnedSync(rows[i], desired, t) {
        SyncedIsEarned(was, cfg, t, result.applied, rows[..], i);
      }
    }
  }

  // ---- Updating one user ----------------------------------------------------------------

  // The fields of an edit that reach the box; None leaves the column alone. A typed password is
  // already trimmed, and `generated` is the random one of a regenerate request.
  datatype Edit = Edit(enabled: Option<bool>, speedUp: Option<real>, speedDown: Option<real>, ipLimit: Option<int>,
                       typed: string, generated: Option<string>)

  function NewPassword(r: Row, e: Edit): Option<string> {
    if e.typed != "" && e.typed != r.password then Some(e.typed) else e.generated
  }

  function PreviousHash(r: Row): Hash {
    if r.remoteHash.Some? && r.remoteHash.value != NO_HASH then r.remoteHash.value else Sha224(r.password)
  }

  function Edited(r: Row, e: Edit): Row {
    var p := r.(enabled := e.enabled.GetOr(r.enabled), speedUp := e.speedUp.GetOr(r.speedUp),
                speedDown := e.speedDown.GetOr(r.speedDown), ipLimit := e.ipLimit.GetOr(r.ipLimit));
    if NewPassword(r, e).Some?
    then p.(password := NewPassword(r, e).value, remoteHash := Some(Sha224(NewPassword(r, e).value)))
    else p
  }

  function Orphans(r: Row, e: Edit): seq<Hash> {
    if NewPassword(r, e).Some? then [PreviousHash(r)] else []
  }

  // A row alone: what its push makes of the box.
  lemma SingleRow(r: Row, cfg: Tracking)
    ensures DesiredRows([r], cfg) == if Pushable(r) then [DesiredOf(r, cfg)] else []
    ensures ArmHashes([r], cfg) == if Armable(r, cfg) then [r.remoteHash.value] else []
    ensures DistinctPasswords([r])
  {
    assert [r][..0] == [];
  }

  /** updateUser with the push on: the new state of the row's own user is exact, the hash of a
      replaced password is gone, and no other user of the box changes. An imported row cannot be
      pushed, yet its live user is deleted exactly by a new password while tracking is on and the
      row stays enabled. */
  method UpdateUser(box: Box, connected: bool, binaryFound: bool, r: Row, e: Edit, cfg: Tracking)
    returns (updated: Row, ok: bool)
    requires box.Valid()
    modifies box
    ensures box.Valid()
    ensures updated.password ==
      if e.typed != "" && e.typed != r.password then e.typed
      else if e.generated.Some? then e.generated.value
      else r.password
    ensures updated.id == r.id && updated.name == r.name && updated.managed == r.managed
    ensures updated.enabled == if e.enabled.Some? then e.enabled.value else r.enabled
    ensures updated.speedUp == if e.speedUp.Some? then e.speedUp.value else r.speedUp
    ensures updated.speedDown == if e.speedDown.Some? then e.speedDown.value else r.speedDown
    ensures updated.ipLimit == if e.ipLimit.Some? then e.ipLimit.value else r.ipLimit
    ensures SameIntent(Edited(r, e), updated)
    ensures box.obedient && connected && binaryFound ==> ok
    ensures box.obedient && ok && r.managed && updated.password != "" ==>
      var q, was := Sha224(updated.password), OldUser(r);
      var rotated := (e.typed != "" && e.typed != r.password) || e.generated.Some?;
      && updated.remoteHash == Some(q)
      && (if updated.enabled then q in box.users && HasLimits(updated, cfg, box.users[q]) else q !in box.users)
      && (rotated && was != q ==> was !in box.users)
      && forall h :: h != q && !(rotated && h == was) ==> Lookup(box.users, h) == Lookup(old(box.users), h)
    ensures box.obedient && connected && binaryFound && !r.managed && OldUser(r) in old(box.users) ==>
      (OldUser(r) !in box.users <==>
         && ((e.typed != "" && e.typed != r.password) || e.generated.Some?)
         && cfg.enabled && (if e.enabled.Some? then e.enabled.value else r.enabled))
    ensures box.obedient && ok && Pushable(updated) ==>
      && Lookup(box.users, Sha224(updated.password)) ==
         (if updated.enabled then Some(Wanted(DesiredOf(updated, cfg))) else None)
      && (NewPassword(r, e).Some? && PreviousHash(r) != Sha224(updated.password) ==> PreviousHash(r) !in box.users)
      && forall h :: h != Sha224(updated.password) && h !in Orphans(r, e) ==> Lookup(box.users, h) == Lookup(old(box.users), h)
    ensures box.obedient && ok && !Pushable(updated) && !Armable(updated, cfg) ==> box.users == old(box.users)
    ensures box.obedient && ok && !Pushable(updated) && Armable(updated, cfg) ==>
      && (NewPassword(r, e).Some? ==> PreviousHash(r) !in box.users)
      && forall h :: h !in Orphans(r, e) && updated.remoteHash != Some(h) ==> Lookup(box.users, h) == Lookup(old(box.users), h)
    ensures box.obedient && connected && binaryFound && !r.managed && PreviousHash(r) in old(box.users) ==>
      (PreviousHash(r) !in box.users <==> NewPassword(r, e).Some? && cfg.enabled && e.enabled.GetOr(r.enabled))
  {
    var p := Edited(r, e);
    var rows := new Row[1](_ => p);
    assert rows[..] == [p];
    SingleRow(p, cfg);
    ghost var before := box.users;
    ghost var t;
    ok, t := PushUsersToServer(box, connected, binaryFound, rows, cfg, Orphans(r, e));
    updated := rows[0];
    assert rows[..][0] == updated;
    if box.obedient && ok && !Idle([p], cfg) {
      EditReaches(before, r, e, cfg, box.users);
    }
  }

  // The user a row stands for before an edit: the one it is known by, or else its password's.
  ghost function OldUser(r: Row): (h: Hash)
    ensures r.remoteHash.Some? && r.remoteHash.value != NO_HASH ==> r.remoteHash == Some(h)
    ensures r.remoteHash.None? || r.remoteHash.value == NO_HASH ==> h == Sha224(r.password)
  {
    PreviousHash(r)
  }

  // What a reconciled box means for the user of an edited row and for everybody else.
  lemma EditReaches(before: map<Hash, Limits>, r: Row, e: Edit, cfg: Tracking, after: map<Hash, Limits>)
    requires var p := Edited(r, e); Reconciled(before, DesiredRows([p], cfg), PushOptions([p], cfg, Orphans(r, e)), after)
    ensures var p := Edited(r, e);
      Pushable(p) ==>
        && Lookup(after, Sha224(p.password)) == (if p.enabled then Some(Wanted(DesiredOf(p, cfg))) else None)
        && (NewPassword(r, e).Some? && PreviousHash(r) != Sha224(p.password) ==> PreviousHash(r) !in after)
        && forall h :: h != Sha224(p.password) && h !in Orphans(r, e) ==> Lookup(after, h) == Lookup(before, h)
    ensures var p := Edited(r, e);
      !Pushable(p) ==>
        && (NewPassword(r, e).Some? ==> PreviousHash(r) !in after)
        && (PreviousHash(r) in before && NewPassword(r, e).None? ==> PreviousHash(r) in after)
        && forall h :: h !in Orphans(r, e) && p.remoteHash != Some(h) ==> Lookup(after, h) == Lookup(before, h)
  {
    var p := Edited(r, e);
    var users, o := DesiredRows([p], cfg), PushOptions([p], cfg, Orphans(r, e));
    SingleRow(p, cfg);
    assert NewPassword(r, e).Some? ==> o.deleteHashes[0] == PreviousHash(r);
    assert Lookup(after, PreviousHash(r)) == Target(before, users, o, PreviousHash(r));
    assert Pushable(p) ==> forall h :: DesiredFor(users, h) == if h == Sha224(p.password) then Some(DesiredOf(p, cfg)) else None;
    forall h ensures Lookup(after, h) == Target(before, users, o, h) {
    }
  }

  /** One imported row, edited: its live user is there before and gone after, although the panel
      never pushes the row. */
  method ImportedUserIsDeleted() returns (was: bool, still: bool, ok: bool)
    ensures was && !still && ok
  {
    var h := Other("0123abcd");
    var box := new Box(true, map[h := Limits(0, 0, 0)]);
    var row := Row(1, "imported-0123abcd", "placeholder", false, true, 0.0, 0.0, 0, Some(h), Synced, Counters(0, 0, 0, 0, 0));
    var updated;
    was := h in box.users;
    updated, ok := UpdateUser(box, true, true, row, Edit(None, None, None, None, "typed", None), Tracking(true, DEFAULT_SENTINEL));
    still := h in box.users;
  }

  // ---- Importing live users -------------------------------------------------------------

  function TrackedHash(r: Row): Hash {
    PreviousHash(r)
  }

  // hash.slice(0, 8).
  type Shorten = Hash -> string

  function ImportName(h: Hash, short: Shorten): string {
    "imported-" + short(h)
  }

  // An import is an enabled row the panel does not manage, with each limit from its own side and no
  // password but the placeholder.
  function ImportedRow(u: LiveUser, placeholder: string, short: Shorten, cfg: Tracking): (row: Row)
    requires u.hash.Some?
    ensures !row.managed && row.enabled && row.remoteHash == u.hash && row.password == placeholder
    ensures row.name == "imported-" + short(u.hash.value) && row.counters == u.counters && row.status == Synced
    ensures row.speedUp == Rounded(u.limits.up) as real && row.speedDown == Rounded(u.limits.down) as real
    ensures row.ipLimit == if u.limits.ip > 0 && u.limits.ip != cfg.sentinel then u.limits.ip else 0
  {
    Row(0, ImportName(u.hash.value, short), placeholder, false, true, Rounded(u.limits.up) as real, Rounded(u.limits.down) as real,
        StoredIpLimit(u.limits.ip, cfg), u.hash, Synced, u.counters)
  }

  // Math.round(bytes / 1024): halves go up.
  function Rounded(bytes: int): (kib: int)
    ensures 1024 * kib - 512 <= bytes < 1024 * kib + 512
  {
    (bytes + 512) / 1024
  }

  function Refreshed(r: Row, u: LiveUser): Row {
    r.(counters := u.counters, status := if r.managed then r.status else Synced)
  }

  // new Map of the rows by hash: the last of two rows with one hash wins.
  function RowIndex(rows: seq<Row>): map<Hash, nat> {
    if rows == [] then map[]
    else RowIndex(rows[..|rows| - 1])[TrackedHash(rows[|rows| - 1]) := |rows| - 1]
  }

  lemma {:induction false} RowIndexSound(rows: seq<Row>, h: Hash)
    ensures h in RowIndex(rows) <==> exists i :: 0 <= i < |rows| && TrackedHash(rows[i]) == h
    ensures h in RowIndex(rows) ==> RowIndex(rows)[h] < |rows| && TrackedHash(rows[RowIndex(rows)[h]]) == h
    ensures h in RowIndex(rows) ==> forall i :: RowIndex(rows)[h] < i < |rows| ==> TrackedHash(rows[i]) != h
  {
    if rows != [] {
      var n := |rows| - 1;
      RowIndexSound(rows[..n], h);
      if TrackedHash(rows[n]) != h && exists i :: 0 <= i < |rows| && TrackedHash(rows[i]) == h {
        var i :| 0 <= i < |rows| && TrackedHash(rows[i]) == h;
        assert TrackedHash(rows[..n][i]) == h;
      }
    }
  }

  // The rows from before only have their counters and status refreshed.
  ghost predicate KeptRows(rows: seq<Row>, after: seq<Row>) {
    && |rows| <= |after|
    && forall i :: 0 <= i < |rows| ==> SameIntent(rows[i], after[i]) && after[i].remoteHash == rows[i].remoteHash
  }

  // Every added row is the import of one listed user nobody tracked, each such user once; a
  // positive sentinel is never what it stores.
  ghost predicate NewRows(rows: seq<Row>, live: seq<LiveUser>, placeholders: seq<string>, short: Shorten, cfg: Tracking,
                          after: seq<Row>, origin: seq<nat>)
    requires |placeholders| == |live|
  {
    && |after| == |rows| + |origin|
    && (forall k :: 0 <= k < |origin| ==> origin[k] < |live| && live[origin[k]].hash.Some?)
    && (forall k :: 0 <= k < |origin| ==>
          after[|rows| + k] == ImportedRow(live[origin[k]], placeholders[origin[k]], short, cfg))
    && (forall k :: 0 <= k < |origin| ==> live[origin[k]].hash.value !in RowIndex(rows))
    && (forall k, l :: 0 <= k < l < |origin| ==> live[origin[k]].hash != live[origin[l]].hash)
    && (cfg.sentinel >= 1 ==> forall i :: |rows| <= i < |after| ==> after[i].ipLimit != cfg.sentinel)
  }

  lemma ImportedOneMore(rows: seq<Row>, live: seq<LiveUser>, placeholders: seq<string>, short: Shorten, cfg: Tracking,
                        after: seq<Row>, origin: seq<nat>, j: nat)
    requires |placeholders| == |live| && j < |live| && live[j].hash.Some?
    requires KeptRows(rows, after) && NewRows(rows, live, placeholders, short, cfg, after, origin)
    requires live[j].hash.value !in RowIndex(rows)
    requires forall k :: 0 <= k < |origin| ==> live[origin[k]].hash != live[j].hash
    ensures var more := after + [ImportedRow(live[j], placeholders[j], short, cfg)];
      KeptRows(rows, more) && NewRows(rows, live, placeholders, short, cfg, more, origin + [j])
  {
  }

  lemma RefreshedRow(rows: seq<Row>, live: seq<LiveUser>, placeholders: seq<string>, short: Shorten, cfg: Tracking,
                     after: seq<Row>, origin: seq<nat>, i: nat, u: LiveUser)
    requires |placeholders| == |live| && i < |rows|
    requires KeptRows(rows, after) && NewRows(rows, live, placeholders, short, cfg, after, origin)
    ensures var more := after[i := Refreshed(after[i], u)];
      KeptRows(rows, more) && NewRows(rows, live, placeholders, short, cfg, more, origin)
  {
  }

  // ---- When an import goes through -------------------------------------------------------

  predicate Tracked(rows: seq<Row>, u: LiveUser) {
    u.hash.Some? && u.hash.value in RowIndex(rows)
  }

  predicate NameTaken(rows: seq<Row>, name: string) {
    exists i :: 0 <= i < |rows| && rows[i].name == name
  }

  // What keeps the j-th user from being imported: no hash, or nobody tracks it and its hash was
  // listed before or its row name is in use.
  predicate Blocked(rows: seq<Row>, live: seq<LiveUser>, short: Shorten, j: nat)
    requires j < |live|
  {
    || live[j].hash.None?
    || (!Tracked(rows, live[j])
        && (|| NameTaken(rows, ImportName(live[j].hash.value, short))
            || exists k :: 0 <= k < j && SameName(live[k], live[j], short) && !Tracked(rows, live[k])))
  }

  // Two users that would share a row name; those with one hash do.
  predicate SameName(u: LiveUser, v: LiveUser, short: Shorten) {
    u.hash.Some? && v.hash.Some? && (u.hash == v.hash || ImportName(u.hash.value, short) == ImportName(v.hash.value, short))
  }

  // The names in use after the first j users: those of the rows and of the untracked users.
  lemma NamesInUse(rows: seq<Row>, live: seq<LiveUser>, placeholders: seq<string>, short: Shorten, cfg: Tracking,
                   after: seq<Row>, origin: seq<nat>, j: nat)
    requires |placeholders| == |live| && j < |live| && live[j].hash.Some? && !Tracked(rows, live[j])
    requires KeptRows(rows, after) && NewRows(rows, live, placeholders, short, cfg, after, origin)
    requires forall k :: 0 <= k < j ==> (k in origin <==> !Tracked(rows, live[k])) && live[k].hash.Some?
    requires forall k :: 0 <= k < |origin| ==> origin[k] < j
    ensures Blocked(rows, live, short, j) <==> NameTaken(after, ImportName(live[j].hash.value, short))
  {
    var name := ImportName(live[j].hash.value, short);
    if NameTaken(rows, name) {
      var i :| 0 <= i < |rows| && rows[i].name == name;
      assert after[i].name == name;
    } else if Blocked(rows, live, short, j) {
      var k :| 0 <= k < j && SameName(live[k], live[j], short) && !Tracked(rows, live[k]);
      assert k in origin;
      var l :| 0 <= l < |origin| && origin[l] == k;
      assert after[|rows| + l].name == name;
    }
    if NameTaken(after, name) {
      var i :| 0 <= i < |after| && after[i].name == name;
      if i < |rows| {
        assert rows[i].name == name;
      } else {
        var k := origin[i - |rows|];
        assert after[|rows| + (i - |rows|)] == ImportedRow(live[k], placeholders[k], short, cfg);
        assert SameName(live[k], live[j], short) && k in origin;
      }
    }
  }

  /** importLiveUsers: known users are refreshed, each unknown one gets one row. `origin` tells
      which listing entry a new row came from. It goes through exactly if no user is blocked; the
      first that is makes the source throw, and the rows written by then stay. */
  method ImportLiveUsers(rows: seq<Row>, live: seq<LiveUser>, placeholders: seq<string>, short: Shorten, cfg: Tracking)
    returns (after: seq<Row>, complete: bool, ghost origin: seq<nat>, ghost reached: nat)
    requires |placeholders| == |live|
    ensures KeptRows(rows, after)
    ensures NewRows(rows, live, placeholders, short, cfg, after, origin)
    ensures complete <==> forall j :: 0 <= j < |live| ==> !Blocked(rows, live, short, j)
    ensures reached <= |live| && (complete <==> reached == |live|)
    ensures !complete ==> Blocked(rows, live, short, reached) && forall j :: 0 <= j < reached ==> !Blocked(rows, live, short, j)
    ensures forall j :: 0 <= j < |live| ==> (j in origin <==> j < reached && !Tracked(rows, live[j]))
    ensures Refreshes(rows, live, after, reached)
  {
    after, origin, reached := rows, [], 0;
    var index := RowIndex(rows);
    var imported: set<Hash> := {};
    NothingRefreshed(rows, live);
    for j := 0 to |live|
      invariant reached == j
      invariant KeptRows(rows, after) && NewRows(rows, live, placeholders, short, cfg, after, origin)
      invariant Reached(rows, live, short, origin, imported, j) && Refreshes(rows, live, after, j)
    {
      var ok;
      ghost var before := after;
      after, imported, ok, origin := ImportOne(rows, live, placeholders, short, cfg, index, after, imported, origin, j);
      if !ok {
        return after, false, origin, j;
      }
      RefreshedMore(rows, live, before, after, j);
      reached := j + 1;
    }
    complete := true;
  }

  // Each row from before as the first j users leave it: the row that is the last one of its hash
  // takes the counters of the last user listed with that hash, and an imported row is synced.
  ghost predicate Refreshes(rows: seq<Row>, live: seq<LiveUser>, after: seq<Row>, j: nat) {
    && |rows| <= |after| && j <= |live|
    && forall n :: 0 <= n < |rows| ==> after[n] == AfterListing(rows, n, live[..j])
  }

  ghost function AfterListing(rows: seq<Row>, n: nat, seen: seq<LiveUser>): Row
    requires n < |rows|
  {
    var h := OldUser(rows[n]);
    if Lookup(RowIndex(rows), h) == Some(n) && Some(h) in ByHash(seen) then
      rows[n].(counters := ByHash(seen)[Some(h)].counters, status := if rows[n].managed then rows[n].status else Synced)
    else rows[n]
  }

  lemma AfterOneMore(rows: seq<Row>, n: nat, seen: seq<LiveUser>, u: LiveUser)
    requires n < |rows|
    ensures AfterListing(rows, n, seen + [u])
         == if u.hash == Some(OldUser(rows[n])) && Lookup(RowIndex(rows), OldUser(rows[n])) == Some(n)
            then Refreshed(AfterListing(rows, n, seen), u) else AfterListing(rows, n, seen)
  {
    assert (seen + [u])[..|seen|] == seen;
  }

  // One listed user: the row it hits is refreshed, or nothing from before changes.
  ghost predicate OneUserMore(rows: seq<Row>, u: LiveUser, before: seq<Row>, after: seq<Row>) {
    u.hash.Some? && |rows| <= |before|
    && var hit := Lookup(RowIndex(rows), u.hash.value);
       if hit.Some? then hit.value < |rows| && after == before[hit.value := Refreshed(before[hit.value], u)]
       else |before| <= |after| && after[..|before|] == before
  }

  lemma NothingRefreshed(rows: seq<Row>, live: seq<LiveUser>)
    ensures Refreshes(rows, live, rows, 0)
  {
    assert live[..0] == [];
  }

  lemma {:induction false} RefreshedMore(rows: seq<Row>, live: seq<LiveUser>, before: seq<Row>, after: seq<Row>, j: nat)
    requires j < |live| && Refreshes(rows, live, before, j) && OneUserMore(rows, live[j], before, after)
    ensures Refreshes(rows, live, after, j + 1)
  {
    assert live[..j + 1] == live[..j] + [live[j]];
    RowIndexSound(rows, live[j].hash.value);
    forall n | 0 <= n < |rows| ensures after[n] == AfterListing(rows, n, live[..j + 1]) {
      AfterOneMore(rows, n, live[..j], live[j]);
      assert after[n] == if Lookup(RowIndex(rows), live[j].hash.value) == Some(n) then Refreshed(before[n], live[j]) else before[n];
    }
  }

  // Where an import stands that has got through the first j users.
  ghost predicate Reached(rows: seq<Row>, live: seq<LiveUser>, short: Shorten, origin: seq<nat>, imported: set<Hash>, j: nat) {
    && j <= |live|
    && (forall h :: h in imported ==> exists k :: 0 <= k < j && live[k].hash == Some(h) && !Tracked(rows, live[k]))
    && (forall k :: 0 <= k < |origin| ==> origin[k] < j && live[origin[k]].hash.Some? && live[origin[k]].hash.value in imported)
    && (forall l :: 0 <= l < j ==> !Blocked(rows, live, short, l) && live[l].hash.Some?)
    && (forall l :: 0 <= l < j ==> (l in origin <==> !Tracked(rows, live[l])))
  }

  lemma ReachedTracked(rows: seq<Row>, live: seq<LiveUser>, short: Shorten, origin: seq<nat>, imported: set<Hash>, j: nat)
    requires j < |live| && Reached(rows, live, short, origin, imported, j) && Tracked(rows, live[j])
    ensures !Blocked(rows, live, short, j) && Reached(rows, live, short, origin, imported, j + 1)
  {
    assert j !in origin;
  }

  lemma ReachedImported(rows: seq<Row>, live: seq<LiveUser>, short: Shorten, origin: seq<nat>, imported: set<Hash>, j: nat)
    requires j < |live| && Reached(rows, live, short, origin, imported, j)
    requires live[j].hash.Some? && !Tracked(rows, live[j]) && !Blocked(rows, live, short, j)
    ensures Reached(rows, live, short, origin + [j], imported + {live[j].hash.value}, j + 1)
  {
    forall h | h in imported + {live[j].hash.value}
      ensures exists k :: 0 <= k < j + 1 && live[k].hash == Some(h) && !Tracked(rows, live[k])
    {
      if h in imported {
        var k :| 0 <= k < j && live[k].hash == Some(h) && !Tracked(rows, live[k]);
      }
    }
  }

  // One user: refreshed, imported, or in the way.
  method ImportOne(rows: seq<Row>, live: seq<LiveUser>, placeholders: seq<string>, short: Shorten, cfg: Tracking,
                   index: map<Hash, nat>, before: seq<Row>, known: set<Hash>, ghost origin: seq<nat>, j: nat)
    returns (after: seq<Row>, imported: set<Hash>, ok: bool, ghost origins: seq<nat>)
    requires |placeholders| == |live| && j < |live| && index == RowIndex(rows)
    requires KeptRows(rows, before) && NewRows(rows, live, placeholders, short, cfg, before, origin)
    requires Reached(rows, live, short, origin, known, j)
    ensures KeptRows(rows, after) && NewRows(rows, live, placeholders, short, cfg, after, origins)
    ensures ok ==> OneUserMore(rows, live[j], before, after)
    ensures ok <==> !Blocked(rows, live, short, j)
    ensures ok ==> Reached(rows, live, short, origins, imported, j + 1)
    ensures !ok ==> after == before && origins == origin
  {
    var u := live[j];
    after, imported, ok, origins := before, known, false, origin;
    if u.hash.None? {
      return;
    }
    var h := u.hash.value;
    if h in imported {
      var k :| 0 <= k < j && live[k].hash == Some(h) && !Tracked(rows, live[k]);
      assert SameName(live[k], u, short);
      return;
    }
    if h in index {
      ReachedTracked(rows, live, short, origin, known, j);
      RowIndexSound(rows, h);
      RefreshedRow(rows, live, placeholders, short, cfg, before, origin, index[h], u);
      after := before[index[h] := Refreshed(before[index[h]], u)];
    } else {
      NamesInUse(rows, live, placeholders, short, cfg, before, origin, j);
      if NameTaken(before, ImportName(h, short)) {
        return;
      }
      ReachedImported(rows, live, short, origin, known, j);
      ImportedOneMore(rows, live, placeholders, short, cfg, before, origin, j);
      after := before + [ImportedRow(u, placeholders[j], short, cfg)];
      origins := origin + [j];
      imported := known + {h};
    }
    ok := true;
  }
}
