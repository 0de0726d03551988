/** uniqueDisplayName: the first free name among base, "base 2", "base 3", ... within a country. The
    source's loop has no bound of its own. It ends because the candidates are all different, which
    needs decimal printing to be injective, and because a catalog of n rows can hold no more than n
    of them. */
module DisplayNames {
  import opened Text

  datatype CatalogItem = CatalogItem(id: int, country: int, displayName: string)

  // A row with this name in this country, other than the excluded one (0 excludes none).
  predicate Clash(catalog: seq<CatalogItem>, country: int, name: string, exclude: int) {
    exists i :: 0 <= i < |catalog| && catalog[i].country == country && catalog[i].displayName == name
                && (exclude == 0 || catalog[i].id != exclude)
  }

  /** The n-th candidate, counted from 1. */
  function Candidate(base: string, n: nat): string
    requires n >= 1
  {
    if n == 1 then base else base + " " + Decimal(n)
  }

  lemma CandidatesDiffer(base: string, m: nat, n: nat)
    requires 1 <= m < n
    ensures Candidate(base, m) != Candidate(base, n)
  {
    var s, t := Candidate(base, m), Candidate(base, n);
    if s == t && m > 1 {
      var k := |base| + 1;
      assert s[k..] == Decimal(m) && t[k..] == Decimal(n);
      DecimalInjective(m, n);
    } else if m == 1 {
      assert |t| > |base|;
    }
  }

  // The names in use that can clash.
  function Names(catalog: seq<CatalogItem>, country: int, exclude: int): set<string> {
    set i | 0 <= i < |catalog| && catalog[i].country == country && (exclude == 0 || catalog[i].id != exclude)
      :: catalog[i].displayName
  }

  lemma {:induction false} NamesFew(catalog: seq<CatalogItem>, country: int, exclude: int)
    ensures |Names(catalog, country, exclude)| <= |catalog|
  {
    if catalog != [] {
      var n := |catalog| - 1;
      NamesFew(catalog[..n], country, exclude);
      var rest := Names(catalog[..n], country, exclude);
      assert Names(catalog, country, exclude) <= rest + {catalog[n].displayName};
      Subset(Names(catalog, country, exclude), rest + {catalog[n].displayName});
    }
  }

  lemma {:induction false} Subset<T>(a: set<T>, b: set<T>)
    requires a <= b
    ensures |a| <= |b|
    decreases b
  {
    if a != {} {
      var x :| x in a;
      Subset(a - {x}, b - {x});
    }
  }

  function Elements(names: seq<string>): set<string> {
    set s | s in names
  }

  lemma {:induction false} DistinctSize(names: seq<string>)
    requires forall i, j :: 0 <= i < j < |names| ==> names[i] != names[j]
    ensures |Elements(names)| == |names|
  {
    if names != [] {
      var n := |names| - 1;
      DistinctSize(names[..n]);
      assert names == names[..n] + [names[n]];
      assert Elements(names) == Elements(names[..n]) + {names[n]};
    }
  }

  /** Pigeonhole: candidates that are all taken are no more than there are rows. */
  lemma TakenCandidatesFew(catalog: seq<CatalogItem>, country: int, base: string, exclude: int, k: nat)
    requires forall n :: 1 <= n <= k ==> Clash(catalog, country, Candidate(base, n), exclude)
    ensures k <= |catalog|
  {
    var names := seq(k, i requires 0 <= i < k => Candidate(base, i + 1));
    forall i, j | 0 <= i < j < k ensures names[i] != names[j] {
      CandidatesDiffer(base, i + 1, j + 1);
    }
    DistinctSize(names);
    NamesFew(catalog, country, exclude);
    forall s | s in Elements(names) ensures s in Names(catalog, country, exclude) {
      var i :| 0 <= i < k && names[i] == s;
      assert Clash(catalog, country, Candidate(base, i + 1), exclude);
    }
    Subset(Elements(names), Names(catalog, country, exclude));
  }

  /** uniqueDisplayName: ends within one probe more than there are rows, with the first candidate
      no other row of the country holds. */
  method UniqueDisplayName(catalog: seq<CatalogItem>, country: int, base: string, exclude: int)
    returns (name: string, probes: nat)
    ensures 1 <= probes <= |catalog| + 1
    ensures name == Candidate(base, probes) && !Clash(catalog, country, name, exclude)
    ensures name == if probes == 1 then base else base + " " + Decimal(probes)
    ensures forall i :: 0 <= i < |catalog| && catalog[i].country == country && catalog[i].displayName == name ==>
      exclude != 0 && catalog[i].id == exclude
    ensures forall n :: 1 <= n < probes ==> Clash(catalog, country, Candidate(base, n), exclude)
    ensures probes > 1 ==> exists i :: 0 <= i < |catalog| && catalog[i].country == country && catalog[i].displayName == base
                                       && (exclude == 0 || catalog[i].id != exclude)
    ensures forall n :: 2 <= n < probes ==>
      exists i :: 0 <= i < |catalog| && catalog[i].country == country && catalog[i].displayName == base + " " + Decimal(n)
                  && (exclude == 0 || catalog[i].id != exclude)
  {
    name := base;
    var n := 2;
    while true
      invariant n >= 2 && name == Candidate(base, n - 1)
      invariant forall m :: 1 <= m < n - 1 ==> Clash(catalog, country, Candidate(base, m), exclude)
      invariant n - 2 <= |catalog|
      decreases |catalog| + 2 - n
    {
      if !Clash(catalog, country, name, exclude) {
        assert n - 1 > 1 ==> Clash(catalog, country, Candidate(base, 1), exclude);
        forall m | 2 <= m < n - 1
          ensures exists i :: 0 <= i < |catalog| && catalog[i].country == country && catalog[i].displayName == base + " " + Decimal(m)
                              && (exclude == 0 || catalog[i].id != exclude)
        {
          assert Clash(catalog, country, Candidate(base, m), exclude);
        }
        return name, n - 1;
      }
      TakenCandidatesFew(catalog, country, base, exclude, n - 1);
      name := base + " " + Decimal(n);
      n := n + 1;
    }
  }
}
