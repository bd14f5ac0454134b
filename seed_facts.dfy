/** What the board shows for the seed listings under particular selector and
    search values. */
module SeedFacts {
  import opened Wrappers
  import Text
  import opened Deals
  import SeedKeys

  /** One step of each running total, at position `i`. */
  lemma SumsStep(s: seq<Property>, i: int)
    requires 0 <= i < |s|
    ensures CountHot(s[i..]) == (if IsHot(s[i]) then 1 else 0) + CountHot(s[i + 1..])
    ensures SpreadSum(s[i..]) == Spread(s[i]) + SpreadSum(s[i + 1..])
    ensures RentSum(s[i..]) == s[i].rent.GetOr(0) + RentSum(s[i + 1..])
  {
    assert s[i..][1..] == s[i + 1..];
  }

  lemma SeedSums()
    ensures CountHot(Seed) == 2
    ensures SpreadSum(Seed) == 797000
  {
    HotOf(Seed);
    SpreadOf(Seed);
  }

  lemma HotOf(s: seq<Property>)
    requires s == Seed
    ensures CountHot(s) == 2
  {
    SumsStep(s, 7);
    SumsStep(s, 6);
    SumsStep(s, 5);
    SumsStep(s, 4);
    SumsStep(s, 3);
    SumsStep(s, 2);
    SumsStep(s, 1);
    SumsStep(s, 0);
    assert s[0..] == s;
  }

  lemma SpreadOf(s: seq<Property>)
    requires s == Seed
    ensures SpreadSum(s) == 797000
  {
    SumsStep(s, 7);
    SumsStep(s, 6);
    SumsStep(s, 5);
    SumsStep(s, 4);
    SumsStep(s, 3);
    SumsStep(s, 2);
    SumsStep(s, 1);
    SumsStep(s, 0);
    assert s[0..] == s;
  }

  /** The seed listings carry the ids 1 to 8, in list order. */
  lemma SeedIds()
    ensures |Seed| == 8 && Ids(Seed) == [1, 2, 3, 4, 5, 6, 7, 8]
  {
    IdsOf(Seed);
  }

  lemma IdsOf(s: seq<Property>)
    requires s == Seed
    ensures Ids(s) == [1, 2, 3, 4, 5, 6, 7, 8]
  {
  }

  /** Filtering an eight-element list whose passing positions are known. */
  lemma WhereOfEight<T>(s: seq<T>, keep: T -> bool, idx: seq<int>)
    requires |s| == 8 && IncreasingPositions(idx, 8)
    requires keep(s[0]) == (0 in idx) && keep(s[1]) == (1 in idx) && keep(s[2]) == (2 in idx)
    requires keep(s[3]) == (3 in idx) && keep(s[4]) == (4 in idx) && keep(s[5]) == (5 in idx)
    requires keep(s[6]) == (6 in idx) && keep(s[7]) == (7 in idx)
    ensures Where(s, keep) == seq(|idx|, k requires 0 <= k < |idx| => s[idx[k]])
  {
    forall j | 0 <= j < 8 ensures keep(s[j]) <==> j in idx {
      if j == 0 {} else if j == 1 {} else if j == 2 {} else if j == 3 {}
      else if j == 4 {} else if j == 5 {} else if j == 6 {} else {}
    }
    WhereSelects(s, keep, idx);
  }

  /** The seed's rentals are the listings at positions 1, 5, 6 and 7. */
  lemma SeedRentals()
    ensures Rentals(Seed) == [Seed[1], Seed[5], Seed[6], Seed[7]]
  {
    RentalsAt(Seed);
  }

  lemma RentalsAt(s: seq<Property>)
    requires s == Seed
    ensures Rentals(s) == [s[1], s[5], s[6], s[7]]
  {
    QuadOfEight(s, IsRental);
  }

  lemma QuadOfEight<T>(s: seq<T>, keep: T -> bool)
    requires |s| == 8
    requires !keep(s[0]) && keep(s[1]) && !keep(s[2]) && !keep(s[3])
    requires !keep(s[4]) && keep(s[5]) && keep(s[6]) && keep(s[7])
    ensures Where(s, keep) == [s[1], s[5], s[6], s[7]]
  {
    WhereOfEight(s, keep, [1, 5, 6, 7]);
  }

  /** With the filters reset, all eight listings are active, two are Hot and
      the average spread is 797000 / 8 = 99625. */
  lemma UnfilteredStatistics()
    ensures Filtered(Seed, All, All, "") == Seed
    ensures |Filtered(Seed, All, All, "")| == 8
    ensures HotCount(Filtered(Seed, All, All, "")) == 2
    ensures AvgSpread(Filtered(Seed, All, All, "")) == 99625.0
  {
    ResetFiltersShowAll(Seed);
    HotCountIsCount(Seed);
    SeedSums();
  }

  lemma RentalRentSum()
    ensures RentSum([Seed[1], Seed[5], Seed[6], Seed[7]]) == 9300
  {
    var rs := [Seed[1], Seed[5], Seed[6], Seed[7]];
    SumsStep(rs, 3);
    SumsStep(rs, 2);
    SumsStep(rs, 1);
    SumsStep(rs, 0);
    assert rs[0..] == rs;
  }

  /** With the filters reset, the rentals are ids 2, 6, 7 and 8, and their
      rents average 9300 / 4 = 2325. */
  lemma UnfilteredRent()
    ensures Ids(Rentals(Filtered(Seed, All, All, ""))) == [2, 6, 7, 8]
    ensures AvgRent(Filtered(Seed, All, All, "")) == 2325.0
  {
    UnfilteredRentOf(Seed);
  }

  lemma UnfilteredRentOf(s: seq<Property>)
    requires s == Seed
    ensures Ids(Rentals(Filtered(s, All, All, ""))) == [2, 6, 7, 8]
    ensures AvgRent(Filtered(s, All, All, "")) == 2325.0
  {
    ResetFiltersShowAll(s);
    RentalsAt(s);
    RentalIds(s);
    RentalRentSum();
    RentAverage(s, [s[1], s[5], s[6], s[7]], 9300);
  }

  lemma RentalIds(s: seq<Property>)
    requires s == Seed
    ensures Ids([s[1], s[5], s[6], s[7]]) == [2, 6, 7, 8]
  {
  }

  lemma RentAverage(fs: seq<Property>, rs: seq<Property>, total: int)
    requires Rentals(fs) == rs && |rs| == 4 && RentSum(rs) == total
    ensures AvgRent(fs) == total as real / 4.0
  {
  }

  /** Which seed listings strategy "Wholesale", structure "All" and an empty
      search keep: the Dallas and Chicago ones. */
  lemma WholesaleKeeps(q: string)
    requires q == Query("")
    ensures Keep(Only(Wholesale), All, q)(Seed[0]) == true && Keep(Only(Wholesale), All, q)(Seed[1]) == false
    ensures Keep(Only(Wholesale), All, q)(Seed[2]) == false && Keep(Only(Wholesale), All, q)(Seed[3]) == false
    ensures Keep(Only(Wholesale), All, q)(Seed[4]) == true && Keep(Only(Wholesale), All, q)(Seed[5]) == false
    ensures Keep(Only(Wholesale), All, q)(Seed[6]) == false && Keep(Only(Wholesale), All, q)(Seed[7]) == false
  {
    BlankSearchExcludesNothing(Only(Wholesale), All, "", Seed[0]);
    BlankSearchExcludesNothing(Only(Wholesale), All, "", Seed[1]);
    BlankSearchExcludesNothing(Only(Wholesale), All, "", Seed[2]);
    BlankSearchExcludesNothing(Only(Wholesale), All, "", Seed[3]);
    BlankSearchExcludesNothing(Only(Wholesale), All, "", Seed[4]);
    BlankSearchExcludesNothing(Only(Wholesale), All, "", Seed[5]);
    BlankSearchExcludesNothing(Only(Wholesale), All, "", Seed[6]);
    BlankSearchExcludesNothing(Only(Wholesale), All, "", Seed[7]);
  }

  /** Strategy "Wholesale", structure "All" and an empty search leave the
      Dallas and Chicago listings. */
  lemma WholesaleOnly()
    ensures Ids(Filtered(Seed, Only(Wholesale), All, "")) == [1, 5]
  {
    WholesaleWhere(Seed, "");
  }

  lemma WholesaleWhere(s: seq<Property>, search: string)
    requires s == Seed && search == ""
    ensures Filtered(s, Only(Wholesale), All, search) == [s[0], s[4]]
  {
    WholesaleKeeps(Query(search));
    PairOfEight(s, Keep(Only(Wholesale), All, Query(search)));
  }

  lemma PairOfEight<T>(s: seq<T>, keep: T -> bool)
    requires |s| == 8
    requires keep(s[0]) && !keep(s[1]) && !keep(s[2]) && !keep(s[3])
    requires keep(s[4]) && !keep(s[5]) && !keep(s[6]) && !keep(s[7])
    ensures Where(s, keep) == [s[0], s[4]]
  {
    WhereOfEight(s, keep, [0, 4]);
  }

  /** Which seed listings the query "cleveland" keeps: only the Cleveland one. */
  lemma ClevelandKeeps(q: string)
    requires q == "cleveland"
    ensures Keep(All, All, q)(Seed[0]) == false && Keep(All, All, q)(Seed[1]) == false
    ensures Keep(All, All, q)(Seed[2]) == false && Keep(All, All, q)(Seed[3]) == false
    ensures Keep(All, All, q)(Seed[4]) == false && Keep(All, All, q)(Seed[5]) == true
    ensures Keep(All, All, q)(Seed[6]) == false && Keep(All, All, q)(Seed[7]) == false
  {
    SeedKeys.ClevelandKeyMatches();
    SeedKeys.KeyMisses0(Seed[0], q);
    SeedKeys.KeyMisses1(Seed[1], q);
    SeedKeys.KeyMisses2(Seed[2], q);
    SeedKeys.KeyMisses3(Seed[3], q);
    SeedKeys.KeyMisses4(Seed[4], q);
    SeedKeys.KeyMisses6(Seed[6], q);
    SeedKeys.KeyMisses7(Seed[7], q);
  }

  lemma ClevelandWhere(q: string)
    requires q == "cleveland"
    ensures Where(Seed, Keep(All, All, q)) == [Seed[5]]
  {
    ClevelandKeeps(q);
    OneOfEight(Seed, Keep(All, All, q));
  }

  lemma OneOfEight<T>(s: seq<T>, keep: T -> bool)
    requires |s| == 8
    requires !keep(s[0]) && !keep(s[1]) && !keep(s[2]) && !keep(s[3])
    requires !keep(s[4]) && keep(s[5]) && !keep(s[6]) && !keep(s[7])
    ensures Where(s, keep) == [s[5]]
  {
    WhereOfEight(s, keep, [5]);
  }

  lemma ClevelandFiltered(q: string)
    requires q == "cleveland" && Text.Lower(q) == q
    ensures Filtered(Seed, All, All, q) == [Seed[5]]
  {
    QueryOfPlainText(q);
    ClevelandWhere(q);
  }

  /** A lower-case search with no padding is its own query. */
  lemma QueryOfPlainText(q: string)
    requires q != [] && !Text.IsSpace(q[0]) && !Text.IsSpace(q[|q| - 1]) && Text.Lower(q) == q
    ensures Query(q) == q
  {
    Text.TrimUnpadded(q);
  }

  /** Searching "Cleveland" in any letter case, with any white-space padding,
      leaves only listing 6. */
  lemma ClevelandInAnyCase(w1: string, search: string, w2: string)
    requires Text.AllSpace(w1) && Text.AllSpace(w2)
    requires Text.Lower(search) == "cleveland"
    ensures Ids(Filtered(Seed, All, All, w1 + search + w2)) == [6]
  {
    SearchIgnoresCaseAndPadding(Seed, All, All, w1, search, w2);
    Text.LowerIdempotent(search);
    ClevelandFiltered(Text.Lower(search));
  }
}
