/** pickRecommended and updateRecommendations: one star per (country, type) group, with
    hysteresis. Loads are the stored integers 0..100. */
module Recommendation {
  import opened Wrappers

  const HYSTERESIS := 8

  datatype Entry = Entry(id: int, sortOrder: int, load: Option<int>, isFresh: bool, healthy: bool, recommended: bool)

  predicate Eligible(e: Entry) {
    e.isFresh && e.load.Some? && e.healthy
  }

  // The comparator of the sort: load, then sort order, then id.
  predicate Before(a: Entry, b: Entry)
    requires a.load.Some? && b.load.Some?
  {
    || a.load.value < b.load.value
    || (a.load == b.load && (a.sortOrder < b.sortOrder || (a.sortOrder == b.sortOrder && a.id < b.id)))
  }

  /** The first of the sorted eligible entries. */
  function Challenger(g: seq<Entry>): (c: Option<Entry>)
    ensures c.Some? ==> c.value in g && Eligible(c.value)
  {
    if g == [] then None
    else
      var c, e := Challenger(g[..|g| - 1]), g[|g| - 1];
      if Eligible(e) && (c.None? || Before(e, c.value)) then Some(e) else c
  }

  function Incumbent(g: seq<Entry>): (c: Option<Entry>)
    ensures c.Some? ==> c.value in g && c.value.recommended
    ensures c.None? ==> forall e :: e in g ==> !e.recommended
  {
    if g == [] then None else if g[0].recommended then Some(g[0]) else Incumbent(g[1..])
  }

  predicate EligibleId(g: seq<Entry>, id: int) {
    exists i :: 0 <= i < |g| && Eligible(g[i]) && g[i].id == id
  }

  /** pickRecommended. A missing load counts as 0 in the subtraction, as null does. */
  function Pick(g: seq<Entry>): Option<int> {
    var challenger, incumbent := Challenger(g), Incumbent(g);
    if |g| < 2 || challenger.None? then None
    else if incumbent.Some? && EligibleId(g, incumbent.value.id)
            && challenger.value.load.value > incumbent.value.load.GetOr(0) - HYSTERESIS
    then Some(incumbent.value.id)
    else Some(challenger.value.id)
  }

  ghost predicate DistinctIds(g: seq<Entry>) {
    forall i, j :: 0 <= i < j < |g| ==> g[i].id != g[j].id
  }

  lemma {:induction false} ChallengerLeast(g: seq<Entry>)
    ensures Challenger(g).Some? <==> exists i :: 0 <= i < |g| && Eligible(g[i])
    ensures Challenger(g).Some? ==>
      forall e :: e in g && Eligible(e) ==> !Before(e, Challenger(g).value)
  {
    if g != [] {
      var n := |g| - 1;
      ChallengerLeast(g[..n]);
      assert g == g[..n] + [g[n]];
      if exists i :: 0 <= i < |g| && Eligible(g[i]) {
        var i :| 0 <= i < |g| && Eligible(g[i]);
        assert i < n ==> Eligible(g[..n][i]);
      }
    }
  }

  /** Who wins: an eligible entry of a group of two or more, less than the hysteresis above the
      least load; and a challenger replaces an eligible incumbent only from that distance on. */
  lemma WinnerMeans(g: seq<Entry>)
    requires DistinctIds(g)
    ensures Pick(g).Some? <==> |g| >= 2 && exists i :: 0 <= i < |g| && Eligible(g[i])
    ensures Pick(g).Some? ==> exists i :: 0 <= i < |g| && g[i].id == Pick(g).value && Wins(g, i)
  {
    ChallengerLeast(g);
    if Pick(g).Some? {
      var i := WinnerAt(g);
    }
  }

  // First of the eligible by load, sort order and id, or less than 8 points behind with the star.
  ghost predicate Wins(g: seq<Entry>, i: nat)
    requires i < |g|
  {
    && Eligible(g[i])
    && (forall e :: e in g && Eligible(e) ==> g[i].load.value < e.load.value + 8)
    && (!g[i].recommended ==> forall e :: e in g && Eligible(e) ==> AheadOf(g[i], e))
  }

  ghost predicate AheadOf(a: Entry, b: Entry) {
    a.load.Some? && b.load.Some?
    && (|| a.load.value < b.load.value
        || (a.load.value == b.load.value && (a.sortOrder < b.sortOrder || (a.sortOrder == b.sortOrder && a.id <= b.id))))
  }

  lemma WinnerAt(g: seq<Entry>) returns (i: nat)
    requires DistinctIds(g) && Pick(g).Some?
    ensures i < |g| && g[i].id == Pick(g).value && Wins(g, i)
  {
    ChallengerLeast(g);
    var c := Challenger(g).value;
    i :| 0 <= i < |g| && g[i] == c;
    if Pick(g).value != c.id {
      var inc := Incumbent(g).value;
      i :| 0 <= i < |g| && g[i] == inc;
      var j :| 0 <= j < |g| && Eligible(g[j]) && g[j].id == inc.id;
      assert i == j;
    }
  }

  /** The one incumbent of a group, if eligible, keeps the star exactly until a challenger is 8 points
      below it. */
  lemma IncumbentKeeps(g: seq<Entry>, k: nat)
    requires DistinctIds(g) && AtMostOneStar(g) && |g| >= 2 && k < |g| && g[k].recommended && Eligible(g[k])
    ensures Pick(g) == Some(g[k].id) <==> forall e :: e in g && Eligible(e) ==> e.load.value > g[k].load.value - 8
  {
    ChallengerLeast(g);
    assert g[k] in g;
    var c, inc := Challenger(g).value, Incumbent(g).value;
    var i :| 0 <= i < |g| && g[i] == inc;
    assert i == k;
    assert EligibleId(g, g[k].id);
  }

  // ---- Row order does not matter --------------------------------------------------------

  ghost predicate AtMostOneStar(g: seq<Entry>) {
    forall i, j :: 0 <= i < j < |g| ==> !(g[i].recommended && g[j].recommended)
  }

  lemma SameMembers(g: seq<Entry>, h: seq<Entry>)
    requires multiset(g) == multiset(h)
    ensures |g| == |h|
    ensures forall e :: e in g <==> e in h
  {
    assert |g| == |multiset(g)| == |multiset(h)| == |h|;
    forall e ensures e in g <==> e in h {
      assert e in g <==> e in multiset(g);
      assert e in h <==> e in multiset(h);
    }
  }

  /** With distinct ids and at most one star, the winner depends only on which entries there are. */
  lemma OrderIndependent(g: seq<Entry>, h: seq<Entry>)
    requires multiset(g) == multiset(h)
    requires DistinctIds(g) && DistinctIds(h) && AtMostOneStar(g) && AtMostOneStar(h)
    ensures Pick(g) == Pick(h)
  {
    SameMembers(g, h);
    ChallengerLeast(g);
    ChallengerLeast(h);
    assert Challenger(g) == Challenger(h) by {
      if Challenger(g).Some? && Challenger(h).Some? {
        var a, b := Challenger(g).value, Challenger(h).value;
        assert !Before(a, b) && !Before(b, a);
        assert a.id == b.id;
        var i :| 0 <= i < |h| && h[i] == a;
        var j :| 0 <= j < |h| && h[j] == b;
      }
    }
    assert Incumbent(g) == Incumbent(h) by {
      if Incumbent(g).Some? && Incumbent(h).Some? {
        var i :| 0 <= i < |h| && h[i] == Incumbent(g).value;
        var j :| 0 <= j < |h| && h[j] == Incumbent(h).value;
      }
    }
    forall id ensures EligibleId(g, id) == EligibleId(h, id) {
      if i :| 0 <= i < |g| && Eligible(g[i]) && g[i].id == id {
        assert g[i] in h;
        var j :| 0 <= j < |h| && h[j] == g[i];
      }
      if i :| 0 <= i < |h| && Eligible(h[i]) && h[i].id == id {
        assert h[i] in g;
        var j :| 0 <= j < |g| && g[j] == h[i];
      }
    }
  }

  // ---- Runs of passes over one group ----------------------------------------------------

  /** The group after its stars were written: the winner's, and no other. */
  function Starred(g: seq<Entry>, winner: Option<int>): (r: seq<Entry>)
    ensures |r| == |g|
    ensures forall i :: 0 <= i < |g| ==> r[i] == g[i].(recommended := Some(g[i].id) == winner)
  {
    seq(|g|, i requires 0 <= i < |g| => g[i].(recommended := Some(g[i].id) == winner))
  }

  // Challenger and eligibility do not look at the stars.
  lemma {:induction false} ChallengerStarred(g: seq<Entry>, w: Option<int>)
    ensures Challenger(Starred(g, w)).Some? <==> Challenger(g).Some?
    ensures Challenger(g).Some? ==>
      Challenger(Starred(g, w)).value == Challenger(g).value.(recommended := Some(Challenger(g).value.id) == w)
  {
    if g != [] {
      var n := |g| - 1;
      ChallengerStarred(g[..n], w);
      assert Starred(g, w)[..n] == Starred(g[..n], w);
    }
  }

  // The star sits on the winner of a group with distinct ids.
  lemma IncumbentStarred(g: seq<Entry>, i: nat)
    requires DistinctIds(g) && i < |g|
    ensures Incumbent(Starred(g, Some(g[i].id))) == Some(g[i].(recommended := true))
  {
    var r := Starred(g, Some(g[i].id));
    assert r[i].recommended;
    assert r[i] in r;
    var inc := Incumbent(r).value;
    var k :| 0 <= k < |r| && r[k] == inc;
    assert k == i;
  }

  lemma EligibleStarred(g: seq<Entry>, w: Option<int>, id: int)
    ensures EligibleId(Starred(g, w), id) == EligibleId(g, id)
  {
    var r := Starred(g, w);
    assert forall i :: 0 <= i < |g| ==> Eligible(r[i]) == Eligible(g[i]) && r[i].id == g[i].id;
    if i :| 0 <= i < |g| && Eligible(g[i]) && g[i].id == id {
      assert Eligible(r[i]);
    }
  }

  /** A second pass on the same readings picks the same winner. */
  lemma PickIdempotent(g: seq<Entry>)
    requires DistinctIds(g)
    ensures Pick(Starred(g, Pick(g))) == Pick(g)
  {
    var w := Pick(g);
    ChallengerStarred(g, w);
    if w.Some? {
      var i := WinnerAt(g);
      IncumbentStarred(g, i);
      EligibleStarred(g, w, w.value);
    }
  }

  // The next pass sees the same entries with no load risen, and the star of the last pass.
  ghost predicate Follows(g: seq<Entry>, h: seq<Entry>) {
    && |h| == |g|
    && forall i :: 0 <= i < |g| ==>
         && h[i].id == g[i].id && Eligible(h[i]) == Eligible(g[i])
         && (Eligible(g[i]) ==> h[i].load.value <= g[i].load.value)
         && h[i].recommended == (Some(g[i].id) == Pick(g))
  }

  ghost predicate Passes(run: seq<seq<Entry>>) {
    && (forall t :: 0 <= t < |run| ==> DistinctIds(run[t]))
    && (forall t :: 0 < t < |run| ==> Follows(run[t - 1], run[t]))
    && (forall t, i :: 0 <= t < |run| && 0 <= i < |run[t]| && Eligible(run[t][i]) ==> 0 <= run[t][i].load.value <= 100)
  }

  function Winners(run: seq<seq<Entry>>): (ws: seq<Option<int>>)
    ensures |ws| == |run| && forall t :: 0 <= t < |run| ==> ws[t] == Pick(run[t])
  {
    if run == [] then [] else Winners(run[..|run| - 1]) + [Pick(run[|run| - 1])]
  }

  // How often the star went from one entry to another.
  function Moves(ws: seq<Option<int>>): nat {
    if |ws| < 2 then 0
    else
      var n := |ws| - 1;
      Moves(ws[..n]) + (if ws[n - 1].Some? && ws[n] != ws[n - 1] then 1 else 0)
  }

  ghost predicate Holds(g: seq<Entry>, i: nat) {
    i < |g| && Eligible(g[i]) && Pick(g) == Some(g[i].id)
  }

  // One pass: the winner's load does not rise, and a move lowers it by the hysteresis.
  lemma MoveLowersLoad(g: seq<Entry>, h: seq<Entry>, i: nat) returns (j: nat)
    requires DistinctIds(g) && DistinctIds(h) && Follows(g, h) && Holds(g, i)
    ensures Holds(h, j)
    ensures h[j].load.value <= g[i].load.value - (if Pick(h) == Pick(g) then 0 else HYSTERESIS)
  {
    ChallengerLeast(h);
    assert h[i].recommended && h[i] in h && EligibleId(h, h[i].id);
    var inc := Incumbent(h).value;
    assert inc in h && inc.recommended;
    var k :| 0 <= k < |h| && h[k] == inc;
    assert h[k].recommended == (Some(g[k].id) == Pick(g));
    assert k == i;
    if Pick(h) == Some(h[i].id) {
      j := i;
    } else {
      j :| 0 <= j < |h| && h[j] == Challenger(h).value;
    }
  }

  lemma {:induction false} MovesSpendLoad(run: seq<seq<Entry>>, i: nat) returns (j: nat)
    requires |run| >= 1 && Passes(run) && Holds(run[0], i)
    ensures Holds(run[|run| - 1], j)
    ensures run[|run| - 1][j].load.value <= run[0][i].load.value - HYSTERESIS * Moves(Winners(run))
  {
    var n := |run| - 1;
    if n == 0 {
      j := i;
    } else {
      PassesPrefix(run);
      MovesOneMore(run);
      var k := MovesSpendLoad(run[..n], i);
      j := MoveLowersLoad(run[n - 1], run[n], k);
    }
  }

  lemma PassesPrefix(run: seq<seq<Entry>>)
    requires |run| >= 2 && Passes(run)
    ensures Passes(run[..|run| - 1])
    ensures DistinctIds(run[|run| - 2]) && DistinctIds(run[|run| - 1]) && Follows(run[|run| - 2], run[|run| - 1])
  {
  }

  lemma MovesOneMore(run: seq<seq<Entry>>)
    requires |run| >= 2
    ensures var n := |run| - 1;
      Moves(Winners(run)) == Moves(Winners(run[..n])) + (if Pick(run[n - 1]).Some? && Pick(run[n]) != Pick(run[n - 1]) then 1 else 0)
  {
    assert Winners(run)[..|run| - 1] == Winners(run[..|run| - 1]);
  }

  /** With fixed eligibility and loads that never rise, the star moves at most 12 times. */
  lemma AtMostTwelveMoves(run: seq<seq<Entry>>)
    requires |run| >= 1 && Passes(run) && Pick(run[0]).Some?
    ensures Moves(Winners(run)) <= 12
  {
    var i := Holder(run[0]);
    var j := MovesSpendLoad(run, i);
  }

  lemma Holder(g: seq<Entry>) returns (i: nat)
    requires DistinctIds(g) && Pick(g).Some?
    ensures Holds(g, i)
  {
    i := WinnerAt(g);
  }

  // Two entries that overtake each other by the hysteresis on every pass.
  function Duel(t: nat): seq<Entry> {
    var low, high := 100 - HYSTERESIS * t, if t == 0 then 100 else 108 - HYSTERESIS * t;
    var even := Entry(0, 0, Some(if t % 2 == 0 then low else high), true, true, t > 0 && t % 2 == 1);
    var odd := Entry(1, 0, Some(if t % 2 == 1 then low else high), true, true, t > 0 && t % 2 == 0);
    [even, odd]
  }

  function Duels(n: nat): (run: seq<seq<Entry>>)
    ensures |run| == n && forall t :: 0 <= t < n ==> run[t] == Duel(t)
  {
    if n == 0 then [] else Duels(n - 1) + [Duel(n - 1)]
  }

  lemma DuelWinner(t: nat)
    ensures Pick(Duel(t)) == Some(t % 2)
  {
    var g := Duel(t);
    assert g[..1] == [g[0]] && g[..1][..0] == [];
    assert g[1..] == [g[1]];
    assert Challenger(g[..1]) == Some(g[0]);
    assert Eligible(g[0]) && Eligible(g[1]);
    assert EligibleId(g, 0) && EligibleId(g, 1);
  }

  lemma {:induction false} Alternating(ws: seq<Option<int>>)
    requires forall t :: 0 <= t < |ws| ==> ws[t] == Some(t % 2)
    ensures Moves(ws) == if |ws| == 0 then 0 else |ws| - 1
  {
    if |ws| >= 2 {
      Alternating(ws[..|ws| - 1]);
    }
  }

  lemma DuelFollows(t: nat)
    requires 1 <= t <= 12
    ensures Follows(Duel(t - 1), Duel(t))
  {
    DuelWinner(t - 1);
  }

  lemma DuelsPass(run: seq<seq<Entry>>)
    requires |run| == 13 && forall t :: 0 <= t < 13 ==> run[t] == Duel(t)
    ensures Passes(run)
  {
    forall t | 0 < t < |run| ensures Follows(run[t - 1], run[t]) {
      DuelFollows(t);
    }
    forall t | 0 <= t < |run| ensures DistinctIds(run[t])
      ensures forall i :: 0 <= i < |run[t]| && Eligible(run[t][i]) ==> 0 <= run[t][i].load.value <= 100
    {
      assert run[t] == Duel(t);
    }
  }

  lemma DuelsWinners(run: seq<seq<Entry>>)
    requires |run| == 13 && forall t :: 0 <= t < 13 ==> run[t] == Duel(t)
    ensures Pick(run[0]).Some? && Moves(Winners(run)) == 12
  {
    forall t | 0 <= t < 13 ensures Winners(run)[t] == Some(t % 2) {
      DuelWinner(t);
    }
    Alternating(Winners(run));
  }

  /** And twelve moves do happen. */
  lemma TwelveMovesHappen() returns (run: seq<seq<Entry>>)
    ensures |run| >= 1 && Passes(run) && Pick(run[0]).Some? && Moves(Winners(run)) == 12
  {
    run := Duels(13);
    DuelsPass(run);
    DuelsWinners(run);
  }

  // ---- A pass over the whole catalog ----------------------------------------------------

  // A catalog row with its server's load; country 0 stands for none.
  datatype Item = Item(id: int, country: int, kind: string, active: bool, sortOrder: int, load: Option<int>,
                       isFresh: bool, healthy: bool, recommended: bool)

  datatype GroupKey = GroupKey(country: int, kind: string)

  function KeyOf(it: Item): GroupKey {
    GroupKey(it.country, it.kind)
  }

  function EntryOf(it: Item): Entry {
    Entry(it.id, it.sortOrder, it.load, it.isFresh, it.healthy, it.recommended)
  }

  // The rows of one group, in table order, and what pickRecommended is shown of them.
  function Members(items: seq<Item>, key: GroupKey): (m: seq<nat>)
    ensures forall j :: 0 <= j < |m| ==> m[j] < |items| && items[m[j]].active && KeyOf(items[m[j]]) == key
  {
    if items == [] then []
    else
      var n := |items| - 1;
      Members(items[..n], key) + (if items[n].active && KeyOf(items[n]) == key then [n] else [])
  }

  lemma {:induction false} MembersSound(items: seq<Item>, key: GroupKey)
    ensures forall i :: 0 <= i < |items| && items[i].active && KeyOf(items[i]) == key ==> i in Members(items, key)
    ensures forall j, k :: 0 <= j < k < |Members(items, key)| ==> Members(items, key)[j] < Members(items, key)[k]
  {
    if items != [] {
      var n := |items| - 1;
      MembersSound(items[..n], key);
      assert forall i :: 0 <= i < n ==> items[..n][i] == items[i];
    }
  }

  function Entries(items: seq<Item>, m: seq<nat>): (g: seq<Entry>)
    requires forall j :: 0 <= j < |m| ==> m[j] < |items|
    ensures |g| == |m| && forall j :: 0 <= j < |m| ==> g[j] == EntryOf(items[m[j]])
  {
    seq(|m|, j requires 0 <= j < |m| => EntryOf(items[m[j]]))
  }

  function Group(items: seq<Item>, key: GroupKey): seq<Entry> {
    Entries(items, Members(items, key))
  }

  predicate Deserves(items: seq<Item>, it: Item) {
    it.active && Pick(Group(items, KeyOf(it))) == Some(it.id)
  }

  /** What a pass leaves: each star is where its group's pick says, and nowhere else. */
  function Pass(items: seq<Item>): (after: seq<Item>)
    ensures |after| == |items|
    ensures forall i :: 0 <= i < |items| ==> after[i] == items[i].(recommended := Deserves(items, items[i]))
  {
    seq(|items|, i requires 0 <= i < |items| => items[i].(recommended := Deserves(items, items[i])))
  }

  ghost predicate DistinctItems(items: seq<Item>) {
    forall i, j :: 0 <= i < j < |items| ==> items[i].id != items[j].id
  }

  lemma GroupDistinct(items: seq<Item>, key: GroupKey)
    requires DistinctItems(items)
    ensures DistinctIds(Group(items, key))
  {
    MembersSound(items, key);
  }

  // Rows that compete for one star.
  ghost predicate Peers(a: Item, b: Item) {
    a.active && b.active && a.country == b.country && a.kind == b.kind
  }

  ghost predicate CanHold(it: Item) {
    it.active && it.isFresh && it.load.Some? && it.healthy
  }

  ghost predicate HasPeer(items: seq<Item>, i: nat)
    requires i < |items|
  {
    exists j :: 0 <= j < |items| && j != i && Peers(items[i], items[j])
  }

  // By load, then sort order, then id.
  ghost predicate Leads(a: Item, b: Item) {
    a.load.Some? && b.load.Some?
    && (|| a.load.value < b.load.value
        || (a.load == b.load && (a.sortOrder < b.sortOrder || (a.sortOrder == b.sortOrder && a.id <= b.id))))
  }

  // Less than 8 points above every peer that could hold the star, and if the star is new, first of them.
  ghost predicate LeadsPeers(items: seq<Item>, i: nat)
    requires i < |items|
  {
    forall j :: 0 <= j < |items| && Peers(items[i], items[j]) && CanHold(items[j]) ==>
      && items[i].load.Some? && items[i].load.value < items[j].load.value + 8
      && (!items[i].recommended ==> Leads(items[i], items[j]))
  }

  ghost predicate StarredPeer(items: seq<Item>, after: seq<Item>, i: nat)
    requires i < |items| == |after|
  {
    exists j :: 0 <= j < |after| && after[j].recommended && Peers(items[i], items[j])
  }

  /** After a pass no group, that is no country and type, has two stars; every star is on a fresh,
      healthy, scored, active row with a peer, less than 8 points above any peer that could hold it,
      and if it is new on the first of them; and a group that can have a star has one. Nothing but
      stars is written. */
  lemma PassMeans(items: seq<Item>)
    requires DistinctItems(items)
    ensures var after := Pass(items);
      && |after| == |items| && (forall i :: 0 <= i < |after| ==> after[i].(recommended := items[i].recommended) == items[i])
      && (forall i, j :: 0 <= i < j < |after| && after[i].recommended && after[j].recommended ==> !Peers(items[i], items[j]))
      && (forall i :: 0 <= i < |after| && after[i].recommended ==> CanHold(items[i]) && HasPeer(items, i) && LeadsPeers(items, i))
      && (forall i :: 0 <= i < |after| && CanHold(items[i]) && HasPeer(items, i) ==> StarredPeer(items, after, i))
  {
    var after := Pass(items);
    forall i | 0 <= i < |after| && after[i].recommended
      ensures CanHold(items[i]) && HasPeer(items, i) && LeadsPeers(items, i)
    {
      StarEarned(items, i);
      PeersAreTwo(items, i);
    }
    forall i | 0 <= i < |after| && CanHold(items[i]) && HasPeer(items, i)
      ensures StarredPeer(items, after, i)
    {
      PeersAreTwo(items, i);
      var j := StarGiven(items, i);
      assert after[j].recommended && Peers(items[i], items[j]);
    }
  }

  // An active row has a peer exactly if its group has two members.
  lemma PeersAreTwo(items: seq<Item>, i: nat)
    requires i < |items| && items[i].active
    ensures HasPeer(items, i) <==> |Members(items, KeyOf(items[i]))| >= 2
  {
    var m := Members(items, KeyOf(items[i]));
    MembersSound(items, KeyOf(items[i]));
    if |m| >= 2 {
      var j := if m[0] == i then m[1] else m[0];
      assert Peers(items[i], items[j]);
    }
  }

  // What pickRecommended is shown of a group are its peers, and the eligible are those that can hold
  // the star.
  lemma GroupIsPeers(items: seq<Item>, i: nat)
    requires i < |items| && items[i].active
    ensures var g := Group(items, KeyOf(items[i]));
      && (forall j :: 0 <= j < |items| && Peers(items[i], items[j]) && CanHold(items[j]) ==>
            EntryOf(items[j]) in g && Eligible(EntryOf(items[j])))
      && (forall e :: e in g && Eligible(e) ==> ShownPeer(items, i, e))
  {
    var m, g := Members(items, KeyOf(items[i])), Group(items, KeyOf(items[i]));
    MembersSound(items, KeyOf(items[i]));
    forall j | 0 <= j < |items| && Peers(items[i], items[j]) && CanHold(items[j]) ensures EntryOf(items[j]) in g {
      var l :| 0 <= l < |m| && m[l] == j;
      assert g[l] == EntryOf(items[j]);
    }
    forall e | e in g && Eligible(e) ensures ShownPeer(items, i, e) {
      var l :| 0 <= l < |g| && g[l] == e;
      assert EntryOf(items[m[l]]) == e && Peers(items[i], items[m[l]]);
    }
  }

  ghost predicate ShownPeer(items: seq<Item>, i: nat, e: Entry)
    requires i < |items|
  {
    exists j :: 0 <= j < |items| && Peers(items[i], items[j]) && CanHold(items[j]) && EntryOf(items[j]) == e
  }

  // A row that deserves the star is eligible and not alone in its group, and it leads the others or
  // has had the star.
  lemma StarEarned(items: seq<Item>, i: nat)
    requires DistinctItems(items) && i < |items| && Deserves(items, items[i])
    ensures CanHold(items[i]) && |Members(items, KeyOf(items[i]))| >= 2 && LeadsPeers(items, i)
  {
    var m, g := Members(items, KeyOf(items[i])), Group(items, KeyOf(items[i]));
    GroupDistinct(items, KeyOf(items[i]));
    var k := WinnerAt(g);
    assert items[m[k]].id == items[i].id;
    assert m[k] == i && g[k] == EntryOf(items[i]);
    GroupIsPeers(items, i);
    forall j | 0 <= j < |items| && Peers(items[i], items[j]) && CanHold(items[j])
      ensures items[i].load.value < items[j].load.value + 8 && (!items[i].recommended ==> Leads(items[i], items[j]))
    {
      assert EntryOf(items[j]) in g && Eligible(EntryOf(items[j]));
      assert !g[k].recommended ==> AheadOf(g[k], EntryOf(items[j]));
    }
  }

  /** The one star a group had before the pass stays, if its row can still hold it and has a peer,
      exactly until another row that can hold it is 8 points below. */
  lemma StarStays(items: seq<Item>, i: nat)
    requires DistinctItems(items) && i < |items| && CanHold(items[i]) && items[i].recommended && HasPeer(items, i)
    requires forall j :: 0 <= j < |items| && j != i && Peers(items[i], items[j]) ==> !items[j].recommended
    ensures Pass(items)[i].recommended <==>
      forall j :: 0 <= j < |items| && Peers(items[i], items[j]) && CanHold(items[j]) ==> items[j].load.value > items[i].load.value - 8
  {
    var m, g := Members(items, KeyOf(items[i])), Group(items, KeyOf(items[i]));
    PeersAreTwo(items, i);
    GroupDistinct(items, KeyOf(items[i]));
    MembersSound(items, KeyOf(items[i]));
    var k :| 0 <= k < |m| && m[k] == i;
    assert g[k] == EntryOf(items[i]);
    OneStarShown(items, i);
    IncumbentKeeps(g, k);
    GroupIsPeers(items, i);
    if !Pass(items)[i].recommended {
      var e :| e in g && Eligible(e) && e.load.value <= g[k].load.value - 8;
      assert ShownPeer(items, i, e);
    } else {
      forall j | 0 <= j < |items| && Peers(items[i], items[j]) && CanHold(items[j])
        ensures items[j].load.value > items[i].load.value - 8
      {
        assert EntryOf(items[j]) in g;
      }
    }
  }

  lemma OneStarShown(items: seq<Item>, i: nat)
    requires i < |items| && items[i].active
    requires forall j :: 0 <= j < |items| && j != i && Peers(items[i], items[j]) ==> !items[j].recommended
    ensures AtMostOneStar(Group(items, KeyOf(items[i])))
  {
    var m, g := Members(items, KeyOf(items[i])), Group(items, KeyOf(items[i]));
    MembersSound(items, KeyOf(items[i]));
    forall a, b | 0 <= a < b < |g| ensures !(g[a].recommended && g[b].recommended) {
      assert Peers(items[i], items[m[a]]) && Peers(items[i], items[m[b]]);
    }
  }

  // A group that can have a star has a row that deserves it.
  lemma StarGiven(items: seq<Item>, i: nat) returns (j: nat)
    requires DistinctItems(items) && i < |items| && items[i].active && Eligible(EntryOf(items[i]))
    requires |Members(items, KeyOf(items[i]))| >= 2
    ensures j < |items| && KeyOf(items[j]) == KeyOf(items[i]) && Deserves(items, items[j])
  {
    var m, g := Members(items, KeyOf(items[i])), Group(items, KeyOf(items[i]));
    GroupDistinct(items, KeyOf(items[i]));
    MembersSound(items, KeyOf(items[i]));
    var l :| 0 <= l < |m| && m[l] == i;
    assert Eligible(g[l]);
    WinnerMeans(g);
    var k :| 0 <= k < |g| && g[k].id == Pick(g).value;
    j := m[k];
  }

  lemma {:induction false} MembersAfter(items: seq<Item>, after: seq<Item>, key: GroupKey)
    requires |after| == |items|
    requires forall i :: 0 <= i < |items| ==> after[i].(recommended := items[i].recommended) == items[i]
    ensures Members(after, key) == Members(items, key)
  {
    if items != [] {
      var n := |items| - 1;
      MembersAfter(items[..n], after[..n], key);
    }
  }

  // The groups of the table after a pass are the groups before it, starred.
  lemma GroupAfterPass(items: seq<Item>, key: GroupKey)
    ensures Group(Pass(items), key) == Starred(Group(items, key), Pick(Group(items, key)))
  {
    var after, m, g := Pass(items), Members(items, key), Group(items, key);
    var w := Pick(g);
    MembersAfter(items, after, key);
    forall j | 0 <= j < |m| ensures Group(after, key)[j] == Starred(g, w)[j] {
      var it := items[m[j]];
      assert KeyOf(it) == key && it.active;
      assert after[m[j]] == it.(recommended := w == Some(it.id));
    }
  }

  /** A second pass on unchanged readings changes nothing. */
  lemma PassIdempotent(items: seq<Item>)
    requires DistinctItems(items)
    ensures Pass(Pass(items)) == Pass(items)
  {
    var after := Pass(items);
    forall i | 0 <= i < |items| ensures Deserves(after, after[i]) == Deserves(items, items[i]) {
      var key := KeyOf(items[i]);
      GroupAfterPass(items, key);
      GroupDistinct(items, key);
      PickIdempotent(Group(items, key));
      assert KeyOf(after[i]) == key;
    }
  }

  // ---- The pass as the source writes it -------------------------------------------------

  ghost predicate GroupsRight(rows: seq<Item>, groups: map<GroupKey, seq<nat>>) {
    forall k :: k in groups ==> groups[k] == Members(rows, k)
  }

  ghost predicate KeysRight(rows: seq<Item>, keys: seq<GroupKey>, known: set<GroupKey>) {
    && (forall k :: k in known <==> k in keys)
    && (forall i :: 0 <= i < |rows| && rows[i].active ==> KeyOf(rows[i]) in known)
    && (forall j, k :: 0 <= j < k < |keys| ==> keys[j] != keys[k])
  }

  ghost predicate Collected(rows: seq<Item>, keys: seq<GroupKey>, groups: map<GroupKey, seq<nat>>) {
    GroupsRight(rows, groups) && KeysRight(rows, keys, groups.Keys)
  }

  lemma NoMembers(rows: seq<Item>, key: GroupKey)
    requires forall i :: 0 <= i < |rows| && rows[i].active ==> KeyOf(rows[i]) != key
    ensures Members(rows, key) == []
  {
  }

  lemma MembersSnoc(rows: seq<Item>, it: Item, key: GroupKey)
    ensures Members(rows + [it], key) == Members(rows, key) + (if it.active && KeyOf(it) == key then [|rows|] else [])
  {
    assert (rows + [it])[..|rows|] == rows;
  }

  function WithMember(groups: map<GroupKey, seq<nat>>, key: GroupKey, i: nat): map<GroupKey, seq<nat>> {
    groups[key := (if key in groups then groups[key] else []) + [i]]
  }

  // The groups and the keys of one more row.
  lemma GroupsOneMore(rows: seq<Item>, i: nat, groups: map<GroupKey, seq<nat>>)
    requires i < |rows| && GroupsRight(rows[..i], groups)
    requires rows[i].active && KeyOf(rows[i]) !in groups ==> Members(rows[..i], KeyOf(rows[i])) == []
    ensures GroupsRight(rows[..i + 1], if rows[i].active then WithMember(groups, KeyOf(rows[i]), i) else groups)
  {
    var next := if rows[i].active then WithMember(groups, KeyOf(rows[i]), i) else groups;
    assert rows[..i + 1] == rows[..i] + [rows[i]];
    forall k | k in next ensures next[k] == Members(rows[..i + 1], k) {
      MembersSnoc(rows[..i], rows[i], k);
    }
  }

  lemma KeysOneMore(rows: seq<Item>, i: nat, keys: seq<GroupKey>, known: set<GroupKey>)
    requires i < |rows| && KeysRight(rows[..i], keys, known)
    ensures var key := KeyOf(rows[i]);
      if rows[i].active then KeysRight(rows[..i + 1], if key in known then keys else keys + [key], known + {key})
      else KeysRight(rows[..i + 1], keys, known)
  {
    assert rows[..i + 1] == rows[..i] + [rows[i]];
  }

  // The Map of groups, keyed in order of first appearance.
  method CollectGroups(rows: seq<Item>) returns (keys: seq<GroupKey>, groups: map<GroupKey, seq<nat>>)
    ensures Collected(rows, keys, groups)
  {
    keys, groups := [], map[];
    for i := 0 to |rows|
      invariant Collected(rows[..i], keys, groups)
    {
      var key := KeyOf(rows[i]);
      if rows[i].active && key !in groups {
        NoMembers(rows[..i], key);
      }
      GroupsOneMore(rows, i, groups);
      KeysOneMore(rows, i, keys, groups.Keys);
      if rows[i].active {
        if key !in groups {
          keys := keys + [key];
        }
        groups := WithMember(groups, key, i);
      }
    }
    assert rows[..|rows|] == rows;
  }

  // One group: a row is written only when its star changes.
  method StarGroup(items: array<Item>, m: seq<nat>, winner: Option<int>)
    requires forall j :: 0 <= j < |m| ==> m[j] < items.Length
    modifies items
    ensures forall i :: 0 <= i < items.Length ==>
      items[i] == if i in m then old(items[i]).(recommended := winner == Some(old(items[i]).id)) else old(items[i])
  {
    for j := 0 to |m|
      invariant forall i :: 0 <= i < items.Length ==>
        items[i] == if i in m[..j] then old(items[i]).(recommended := winner == Some(old(items[i]).id)) else old(items[i])
    {
      var should := winner == Some(items[m[j]].id);
      if items[m[j]].recommended != should {
        items[m[j]] := items[m[j]].(recommended := should);
      }
      assert m[..j + 1] == m[..j] + [m[j]];
    }
    assert m[..|m|] == m;
  }

  // Rows whose group has been dealt with carry the star they deserve.
  ghost predicate StarredSoFar(was: seq<Item>, now: seq<Item>, keys: seq<GroupKey>) {
    && |now| == |was|
    && forall i :: 0 <= i < |was| ==>
         now[i] == if was[i].active && KeyOf(was[i]) in keys then Pass(was)[i] else was[i]
  }

  lemma StarOneGroup(was: seq<Item>, now: seq<Item>, next: seq<Item>, keys: seq<GroupKey>, key: GroupKey)
    requires StarredSoFar(was, now, keys) && key !in keys && |next| == |now|
    requires var w := Pick(Group(was, key));
      forall i :: 0 <= i < |now| ==>
        next[i] == if i in Members(was, key) then now[i].(recommended := w == Some(now[i].id)) else now[i]
    ensures StarredSoFar(was, next, keys + [key])
  {
    MembersSound(was, key);
  }

  method StarKey(items: array<Item>, rows: seq<Item>, m: seq<nat>, ghost done: seq<GroupKey>, ghost key: GroupKey)
    requires StarredSoFar(rows, items[..], done) && key !in done && m == Members(rows, key)
    modifies items
    ensures StarredSoFar(rows, items[..], done + [key])
  {
    ghost var now := items[..];
    StarGroup(items, m, Pick(Entries(rows, m)));
    StarOneGroup(rows, now, items[..], done, key);
  }

  // A deactivated incumbent does not keep a stale star.
  method ClearInactive(items: array<Item>)
    modifies items
    ensures forall i :: 0 <= i < items.Length ==>
      items[i] == if old(items[i]).active then old(items[i]) else old(items[i]).(recommended := false)
  {
    for i := 0 to items.Length
      invariant forall j :: i <= j < items.Length ==> items[j] == old(items[j])
      invariant forall j :: 0 <= j < i ==>
        items[j] == if old(items[j]).active then old(items[j]) else old(items[j]).(recommended := false)
    {
      if items[i].recommended && !items[i].active {
        items[i] := items[i].(recommended := false);
      }
    }
  }

  lemma StarsDone(was: seq<Item>, now: seq<Item>, keys: seq<GroupKey>, groups: map<GroupKey, seq<nat>>, after: seq<Item>)
    requires Collected(was, keys, groups) && StarredSoFar(was, now, keys) && |after| == |now|
    requires forall i :: 0 <= i < |now| ==> after[i] == if now[i].active then now[i] else now[i].(recommended := false)
    ensures after == Pass(was)
  {
  }

  /** updateRecommendations. */
  method UpdateRecommendations(items: array<Item>)
    modifies items
    ensures items[..] == Pass(old(items[..]))
  {
    var rows := items[..];
    var keys, groups := CollectGroups(rows);
    for k := 0 to |keys|
      invariant StarredSoFar(rows, items[..], keys[..k])
    {
      StarKey(items, rows, groups[keys[k]], keys[..k], keys[k]);
      assert keys[..k + 1] == keys[..k] + [keys[k]];
    }
    assert keys[..|keys|] == keys;
    ghost var starred := items[..];
    ClearInactive(items);
    StarsDone(rows, starred, keys, groups, items[..]);
  }
}
