/** The trojan-go box at the far end of the SSH connection: a map from user hash to limits. */
module TrojanBox {
  // One class stands for two boxes. The obedient one carries out every command and lists the truth,
  // except that Add may drop the ip limit. The other may answer anything.
  import opened Wrappers

  // The text of a user hash: hex(SHA-224) of a password, or any other text. Being a constructor,
  // Sha224 has only what is assumed of it: no hash of a password is empty, and equal ones come from
  // equal passwords.
  datatype Hash = Sha224(password: string) | Other(text: string)

  const NO_HASH := Other("")

  // Bytes per second, and the number of concurrent addresses (0 = unlimited).
  datatype Limits = Limits(up: int, down: int, ip: int)

  datatype Counters = Counters(trafficUp: int, trafficDown: int, speedUp: int, speedDown: int, ipCurrent: int)

  // One normalized entry of `-api list`; a missing or empty hash is None.
  datatype LiveUser = LiveUser(hash: Option<Hash>, limits: Limits, counters: Counters)

  datatype Reply = Exit(code: int) | Threw

  datatype Listing = Listed(users: seq<LiveUser>) | ListFailed

  datatype Command =
    | DeleteUser(hash: Hash)
    | ModifyUser(hash: Hash, limits: Limits)
    | AddUser(password: string, limits: Limits)

  // What went over the connection: a command with its reply, or a listing.
  datatype Exchange = Did(command: Command, reply: Reply) | Saw(listing: Listing)

  /** A truthful listing: every user of the box exactly once, with its limits. */
  ghost predicate Lists(live: seq<LiveUser>, users: map<Hash, Limits>) {
    && (forall i :: 0 <= i < |live| ==>
          live[i].hash.Some? && live[i].hash.value in users && live[i].limits == users[live[i].hash.value])
    && (forall h :: h in users ==> ListedHash(live, h))
    && (forall i, j :: 0 <= i < j < |live| ==> live[i].hash != live[j].hash)
  }

  ghost predicate ListedHash(live: seq<LiveUser>, h: Hash) {
    exists i :: 0 <= i < |live| && live[i].hash == Some(h)
  }

  class Box {
    const obedient: bool
    var users: map<Hash, Limits>
    ghost var log: seq<Exchange>

    ghost predicate Valid()
      reads this
    {
      obedient ==>
        && NO_HASH !in users
        && forall h :: h in users ==> users[h].up >= 0 && users[h].down >= 0
    }

    constructor (obedient: bool, users: map<Hash, Limits>)
      requires NO_HASH !in users && forall h :: h in users ==> users[h].up >= 0 && users[h].down >= 0
      ensures Valid() && this.obedient == obedient && this.users == users && log == []
    {
      this.obedient := obedient;
      this.users := users;
      log := [];
    }

    method List() returns (l: Listing)
      modifies this`log
      ensures log == old(log) + [Saw(l)]
      ensures obedient ==> l.Listed? && Lists(l.users, users)
    {
      if !obedient {
        l := *;
        log := log + [Saw(l)];
        return;
      }
      var live: seq<LiveUser> := [];
      var todo := users.Keys;
      while todo != {}
        invariant todo <= users.Keys
        invariant Lists(live, map h | h in users && h !in todo :: users[h])
        decreases |todo|
      {
        var h :| h in todo;
        var counters: Counters := *;
        ghost var before := live;
        live := live + [LiveUser(Some(h), users[h], counters)];
        todo := todo - {h};
        assert live[|before|].hash == Some(h);
        assert forall g :: ListedHash(before, g) ==> ListedHash(live, g) by {
          forall g | ListedHash(before, g) ensures ListedHash(live, g) {
            var i :| 0 <= i < |before| && before[i].hash == Some(g);
            assert live[i].hash == Some(g);
          }
        }
      }
      assert users == map h | h in users && h !in todo :: users[h];
      l := Listed(live);
      log := log + [Saw(l)];
    }

    /** `-api set -delete-profile`. */
    method Delete(h: Hash) returns (r: Reply)
      requires Valid()
      modifies this
      ensures Valid() && log == old(log) + [Did(DeleteUser(h), r)]
      ensures obedient ==> r == Exit(0) && users == old(users) - {h}
    {
      if obedient {
        users := users - {h};
        r := Exit(0);
      } else {
        users, r := *, *;
      }
      log := log + [Did(DeleteUser(h), r)];
    }

    /** `-api set -modify-profile`: sets all three limits of a user that exists. */
    method Modify(h: Hash, limits: Limits) returns (r: Reply)
      requires Valid() && limits.up >= 0 && limits.down >= 0
      modifies this
      ensures Valid() && log == old(log) + [Did(ModifyUser(h, limits), r)]
      ensures obedient && h in old(users) ==> r == Exit(0) && users == old(users)[h := limits]
      ensures obedient && h !in old(users) ==> users == old(users)
    {
      if !obedient {
        users, r := *, *;
      } else if h in users {
        users := users[h := limits];
        r := Exit(0);
      } else {
        r := Exit(1);
      }
      log := log + [Did(ModifyUser(h, limits), r)];
    }

    /** `-api set -add-profile`: the new user may come up without its ip limit. */
    method Add(password: string, limits: Limits) returns (r: Reply)
      requires Valid() && limits.up >= 0 && limits.down >= 0
      modifies this
      ensures Valid() && log == old(log) + [Did(AddUser(password, limits), r)]
      ensures obedient ==>
        && r == Exit(0)
        && (|| users == old(users)[Sha224(password) := limits]
            || users == old(users)[Sha224(password) := limits.(ip := 0)])
    {
      if !obedient {
        users, r := *, *;
      } else {
        var dropped: bool := *;
        users := users[Sha224(password) := if dropped then limits.(ip := 0) else limits];
        r := Exit(0);
      }
      log := log + [Did(AddUser(password, limits), r)];
    }
  }
}
