/** The deal board's data and the values it derives from the filter selectors:
    the listing records, the filtered list, the summary statistics and the
    property the map focuses on. */
module Deals {
  import opened Wrappers
  import Text

  datatype Strategy = Wholesale | Section8 | FixAndFlip | StandardRental
  datatype Structure = SingleFamily | MultiFamily
  datatype Status = Hot | New | Underwriting | Ready

  /** A selector's value: "All", or one value of the enumeration. */
  datatype Choice<T> = All | Only(value: T)

  /** One listing. Money is in whole dollars; `rent` is absent for
      properties that carry no rent figure. */
  datatype Property = Property(
    id: int,
    address: string,
    city: string,
    state: string,
    price: int,
    arv: int,
    strategy: Strategy,
    structure: Structure,
    beds: int,
    baths: int,
    sqft: int,
    lat: real,
    lng: real,
    status: Status,
    rent: Option<int>)

  /** ARV minus purchase price. */
  function Spread(p: Property): int {
    p.arv - p.price
  }

  /** The eight listings the board shows, in display order. */
  const Seed: seq<Property> := [
    Property(1, "1430 Willow St", "Dallas", "TX", 218000, 305000, Wholesale, SingleFamily,
             3, 2, 1680, 32.7767, -96.797, Hot, None),
    Property(2, "8825 Magnolia Cir", "Atlanta", "GA", 189000, 265000, Section8, SingleFamily,
             4, 2, 1560, 33.749, -84.388, Ready, Some(2350)),
    Property(3, "4129 Oak Crest Dr", "Phoenix", "AZ", 335000, 465000, FixAndFlip, SingleFamily,
             4, 3, 2100, 33.4484, -112.074, Underwriting, None),
    Property(4, "97 Harbor View", "Tampa", "FL", 412000, 575000, FixAndFlip, SingleFamily,
             5, 3, 2480, 27.9506, -82.4572, New, None),
    Property(5, "607 Parkside Ave", "Chicago", "IL", 260000, 355000, Wholesale, MultiFamily,
             6, 3, 3200, 41.8781, -87.6298, Hot, None),
    Property(6, "210 Alder Row", "Cleveland", "OH", 142000, 205000, StandardRental, SingleFamily,
             3, 1, 1260, 41.4993, -81.6944, Ready, Some(1650)),
    Property(7, "55 Grove Place", "Indianapolis", "IN", 178000, 245000, Section8, MultiFamily,
             4, 2, 1850, 39.7684, -86.1581, Underwriting, Some(2600)),
    Property(8, "994 Lakehurst Rd", "Charlotte", "NC", 322000, 438000, StandardRental, SingleFamily,
             4, 2, 2100, 35.2271, -80.8431, New, Some(2700))
  ]

  /** The ids of a list, in order. */
  function Ids(fs: seq<Property>): (r: seq<int>)
    ensures |r| == |fs| && forall i :: 0 <= i < |fs| ==> r[i] == fs[i].id
  {
    if fs == [] then [] else [fs[0].id] + Ids(fs[1..])
  }

  // ---------------------------------------------------------------------------
  // Array.prototype.filter

  /** The elements of `s` that `keep` accepts, in their original order. */
  function Where<T(==)>(s: seq<T>, keep: T -> bool): (r: seq<T>)
    ensures |r| <= |s|
  {
    if s == [] then [] else (if keep(s[0]) then [s[0]] else []) + Where(s[1..], keep)
  }

  /** Filtering is sound and complete: what it returns comes from `s` and
      passes `keep`, and every element of `s` that passes `keep` is returned. */
  lemma {:induction false} WhereSoundComplete<T>(s: seq<T>, keep: T -> bool)
    ensures forall x :: x in Where(s, keep) ==> x in s && keep(x)
    ensures forall i :: 0 <= i < |s| && keep(s[i]) ==> s[i] in Where(s, keep)
  {
    if s != [] {
      WhereSoundComplete(s[1..], keep);
      forall i | 1 <= i < |s| && keep(s[i]) ensures s[i] in Where(s, keep) {
        assert s[i] == s[1..][i - 1];
      }
    }
  }

  /** `r` can be obtained from `s` by deleting elements, without reordering. */
  predicate IsSubsequence<T(==)>(r: seq<T>, s: seq<T>)
    decreases |s|
  {
    r == [] || (s != [] && ((r[0] == s[0] && IsSubsequence(r[1..], s[1..])) || IsSubsequence(r, s[1..])))
  }

  /** Filtering keeps the order of what it keeps. */
  lemma {:induction false} WhereIsSubsequence<T>(s: seq<T>, keep: T -> bool)
    ensures IsSubsequence(Where(s, keep), s)
  {
    if s != [] {
      var rest := Where(s[1..], keep);
      WhereIsSubsequence(s[1..], keep);
      if keep(s[0]) {
        assert Where(s, keep) == [s[0]] + rest;
        assert ([s[0]] + rest)[1..] == rest;
      } else {
        assert Where(s, keep) == rest;
      }
    }
  }

  /** Filtering with a test every element passes returns the list unchanged. */
  lemma {:induction false} WhereKeepsAll<T>(s: seq<T>, keep: T -> bool)
    requires forall i :: 0 <= i < |s| ==> keep(s[i])
    ensures Where(s, keep) == s
  {
    if s != [] {
      WhereKeepsAll(s[1..], keep);
      assert [s[0]] + s[1..] == s;
    }
  }

  /** `idx` lists positions below `n` in strictly increasing order. */
  predicate IncreasingPositions(idx: seq<int>, n: int) {
    && (forall k :: 0 <= k < |idx| ==> 0 <= idx[k] < n)
    && (forall k, l :: 0 <= k < l < |idx| ==> idx[k] < idx[l])
  }

  /** `idx` holds exactly the positions of `s` whose elements pass `keep`. */
  predicate PassingPositions<T>(s: seq<T>, keep: T -> bool, idx: seq<int>) {
    forall j :: 0 <= j < |s| ==> (keep(s[j]) <==> j in idx)
  }

  function ShiftDown(idx: seq<int>): (r: seq<int>)
    ensures |r| == |idx| && forall k :: 0 <= k < |idx| ==> r[k] == idx[k] - 1
  {
    seq(|idx|, k requires 0 <= k < |idx| => idx[k] - 1)
  }

  /** There are no more increasing positions below `n` than `n`. */
  lemma {:induction false} PositionsFit(idx: seq<int>, n: int)
    requires 0 <= n && IncreasingPositions(idx, n)
    ensures |idx| <= n
  {
    if idx != [] {
      var last := |idx| - 1;
      assert IncreasingPositions(idx[..last], idx[last]);
      PositionsFit(idx[..last], idx[last]);
    }
  }

  lemma FirstPosition<T>(s: seq<T>, keep: T -> bool, idx: seq<int>)
    requires s != [] && IncreasingPositions(idx, |s|) && PassingPositions(s, keep, idx)
    ensures keep(s[0]) <==> idx != [] && idx[0] == 0
    ensures forall k :: (if keep(s[0]) then 1 else 0) <= k < |idx| ==> idx[k] != 0
  {
    if keep(s[0]) {
      assert 0 in idx;
      var m :| 0 <= m < |idx| && idx[m] == 0;
      assert idx[0] <= idx[m];
    } else {
      forall k | 0 <= k < |idx| ensures idx[k] != 0 {
        assert idx[k] in idx;
      }
    }
  }

  lemma ShiftRange(idx: seq<int>, n: int, drop: nat)
    requires IncreasingPositions(idx, n) && drop <= |idx|
    requires forall k :: drop <= k < |idx| ==> idx[k] != 0
    ensures IncreasingPositions(ShiftDown(idx[drop..]), n - 1)
  {
  }

  lemma ShiftPassing<T>(s: seq<T>, keep: T -> bool, idx: seq<int>, drop: nat)
    requires s != [] && drop <= |idx| && PassingPositions(s, keep, idx)
    requires forall k :: 0 <= k < drop ==> idx[k] == 0
    ensures PassingPositions(s[1..], keep, ShiftDown(idx[drop..]))
  {
    var rest := ShiftDown(idx[drop..]);
    forall j | 0 <= j < |s| - 1 ensures keep(s[1..][j]) <==> j in rest {
      assert s[1..][j] == s[j + 1];
      if j + 1 in idx {
        var m :| 0 <= m < |idx| && idx[m] == j + 1;
        assert rest[m - drop] == j;
      }
      if j in rest {
        var m :| 0 <= m < |rest| && rest[m] == j;
        assert idx[m + drop] == j + 1;
      }
    }
  }

  /** Filtering picks out exactly the positions whose elements pass: if `idx`
      lists, in increasing order, the positions of `s` whose elements `keep`
      accepts, the result is the elements at those positions, in that order. */
  lemma {:induction false} WhereSelects<T>(s: seq<T>, keep: T -> bool, idx: seq<int>)
    requires IncreasingPositions(idx, |s|)
    requires PassingPositions(s, keep, idx)
    ensures |Where(s, keep)| == |idx|
    ensures forall k :: 0 <= k < |idx| ==> Where(s, keep)[k] == s[idx[k]]
  {
    if s == [] {
      PositionsFit(idx, 0);
    } else {
      var drop := if keep(s[0]) then 1 else 0;
      FirstPosition(s, keep, idx);
      ShiftRange(idx, |s|, drop);
      ShiftPassing(s, keep, idx, drop);
      WhereSelects(s[1..], keep, ShiftDown(idx[drop..]));
      WherePrepends(s, keep, idx, drop);
    }
  }

  lemma WherePrepends<T>(s: seq<T>, keep: T -> bool, idx: seq<int>, drop: nat)
    requires s != [] && drop == (if keep(s[0]) then 1 else 0) && drop <= |idx|
    requires IncreasingPositions(idx, |s|) && (drop == 1 ==> idx[0] == 0)
    requires IncreasingPositions(ShiftDown(idx[drop..]), |s| - 1)
    requires |Where(s[1..], keep)| == |idx| - drop
    requires forall k :: 0 <= k < |idx| - drop ==> Where(s[1..], keep)[k] == s[1..][ShiftDown(idx[drop..])[k]]
    ensures |Where(s, keep)| == |idx|
    ensures forall k :: 0 <= k < |idx| ==> Where(s, keep)[k] == s[idx[k]]
  {
    var r' := Where(s[1..], keep);
    var rest := ShiftDown(idx[drop..]);
    forall k | 0 <= k < |idx| - drop ensures r'[k] == s[idx[k + drop]] {
      assert rest[k] == idx[k + drop] - 1 && 0 <= rest[k];
      assert s[1..][rest[k]] == s[idx[k + drop]];
    }
    if drop == 1 {
      assert Where(s, keep) == [s[0]] + r';
    } else {
      assert Where(s, keep) == r';
    }
  }

  /** Filtering twice with the same test is filtering once. */
  lemma WhereIdempotent<T>(s: seq<T>, keep: T -> bool)
    ensures Where(Where(s, keep), keep) == Where(s, keep)
  {
    var r := Where(s, keep);
    WhereSoundComplete(s, keep);
    forall i | 0 <= i < |r| ensures keep(r[i]) {
      assert r[i] in r;
    }
    WhereKeepsAll(r, keep);
  }

  /** Filtering a concatenation filters each part. */
  lemma {:induction false} WhereAppend<T>(a: seq<T>, b: seq<T>, keep: T -> bool)
    ensures Where(a + b, keep) == Where(a, keep) + Where(b, keep)
  {
    if a != [] {
      assert (a + b)[1..] == a[1..] + b;
      WhereAppend(a[1..], b, keep);
    } else {
      assert a + b == b;
    }
  }

  // ---------------------------------------------------------------------------
  // The filter

  /** What the search box is compared with: lower-cased, then trimmed. */
  function Query(search: string): string {
    Text.Trim(Text.Lower(search))
  }

  /** The text a property is searched by: "address city state", lower-cased. */
  function SearchKey(p: Property): string {
    Text.Lower(p.address + " " + p.city + " " + p.state)
  }

  /** The three conditions, with the query already normalised. */
  predicate Admits(strategy: Choice<Strategy>, structure: Choice<Structure>, query: string, p: Property) {
    && (strategy.All? || p.strategy == strategy.value)
    && (structure.All? || p.structure == structure.value)
    && Text.Contains(SearchKey(p), query)
  }

  function Keep(strategy: Choice<Strategy>, structure: Choice<Structure>, query: string): Property -> bool {
    p => Admits(strategy, structure, query, p)
  }

  /** A property passes the board's filter for these selector values and this search text. */
  predicate Matches(strategy: Choice<Strategy>, structure: Choice<Structure>, search: string, p: Property) {
    Admits(strategy, structure, Query(search), p)
  }

  /** filteredProperties */
  function Filtered(ps: seq<Property>, strategy: Choice<Strategy>, structure: Choice<Structure>, search: string): seq<Property> {
    Where(ps, Keep(strategy, structure, Query(search)))
  }

  /** The filtered list is an order-preserving subsequence of the listings;
      each kept property satisfies all three conditions and each dropped one
      fails at least one of them. */
  lemma FilteredIsExactSelection(ps: seq<Property>, strategy: Choice<Strategy>, structure: Choice<Structure>, search: string)
    ensures IsSubsequence(Filtered(ps, strategy, structure, search), ps)
    ensures forall p :: p in Filtered(ps, strategy, structure, search) ==> p in ps && Matches(strategy, structure, search, p)
    ensures forall i :: 0 <= i < |ps| ==>
              (ps[i] in Filtered(ps, strategy, structure, search) <==> Matches(strategy, structure, search, ps[i]))
  {
    WhereIsSubsequence(ps, Keep(strategy, structure, Query(search)));
    WhereSoundComplete(ps, Keep(strategy, structure, Query(search)));
  }

  /** Applying the same criteria twice yields the same list. */
  lemma FilteredIdempotent(ps: seq<Property>, strategy: Choice<Strategy>, structure: Choice<Structure>, search: string)
    ensures Filtered(Filtered(ps, strategy, structure, search), strategy, structure, search)
            == Filtered(ps, strategy, structure, search)
  {
    WhereIdempotent(ps, Keep(strategy, structure, Query(search)));
  }

  /** The search ignores letter case and surrounding white space: a query
      padded with blanks on either side, in any mix of cases, filters exactly
      as its lower-case core does. */
  lemma SearchIgnoresCaseAndPadding(ps: seq<Property>, strategy: Choice<Strategy>, structure: Choice<Structure>,
                                    w1: string, search: string, w2: string)
    requires Text.AllSpace(w1) && Text.AllSpace(w2)
    ensures Filtered(ps, strategy, structure, w1 + search + w2)
            == Filtered(ps, strategy, structure, Text.Lower(search))
  {
    var low := Text.Lower(search);
    Text.LowerAppend(w1, search);
    Text.LowerAppend(w1 + search, w2);
    Text.LowerKeepsSpace(w1);
    Text.LowerKeepsSpace(w2);
    Text.LowerIdempotent(search);
    Text.TrimIgnoresPadding(w1, low, w2);
    assert Query(w1 + search + w2) == Query(low);
  }

  /** A blank search (empty or all white space) excludes nothing: only the
      selectors decide. */
  lemma BlankSearchExcludesNothing(strategy: Choice<Strategy>, structure: Choice<Structure>, search: string, p: Property)
    requires Text.AllSpace(search)
    ensures Matches(strategy, structure, search, p)
            <==> (strategy.All? || p.strategy == strategy.value) && (structure.All? || p.structure == structure.value)
  {
    assert Text.AllSpace(Text.Lower(search));
    assert Query(search) == [];
    Text.ContainsEmpty(SearchKey(p));
  }

  /** With both selectors on "All" and an empty search, the filter shows every listing in order. */
  lemma ResetFiltersShowAll(ps: seq<Property>)
    ensures Filtered(ps, All, All, "") == ps
  {
    forall i | 0 <= i < |ps| ensures Keep(All, All, Query(""))(ps[i]) {
      BlankSearchExcludesNothing(All, All, "", ps[i]);
    }
    WhereKeepsAll(ps, Keep(All, All, Query("")));
  }

  // ---------------------------------------------------------------------------
  // Statistics

  function Max(a: int, b: int): int {
    if a >= b then a else b
  }

  predicate IsHot(p: Property) {
    p.status == Hot
  }

  /** hotDeals: how many filtered properties are Hot. */
  function HotCount(fs: seq<Property>): (r: nat)
    ensures r <= |fs|
    ensures r == |fs| <==> forall i :: 0 <= i < |fs| ==> IsHot(fs[i])
  {
    HotCountIsCount(fs);
    |Where(fs, IsHot)|
  }

  /** The number of Hot properties, counted one by one. */
  function CountHot(fs: seq<Property>): nat {
    if fs == [] then 0 else (if IsHot(fs[0]) then 1 else 0) + CountHot(fs[1..])
  }

  lemma {:induction false} HotCountIsCount(fs: seq<Property>)
    ensures |Where(fs, IsHot)| == CountHot(fs)
    ensures CountHot(fs) <= |fs|
    ensures CountHot(fs) == |fs| <==> forall i :: 0 <= i < |fs| ==> IsHot(fs[i])
  {
    if fs != [] {
      HotCountIsCount(fs[1..]);
      if CountHot(fs) == |fs| {
        forall i | 1 <= i < |fs| ensures IsHot(fs[i]) {
          assert fs[i] == fs[1..][i - 1];
        }
      }
    }
  }

  function SpreadSum(fs: seq<Property>): int {
    if fs == [] then 0 else Spread(fs[0]) + SpreadSum(fs[1..])
  }

  /** avgSpread: the mean spread of the filtered list, or 0 when it is empty. */
  function AvgSpread(fs: seq<Property>): (r: real)
    ensures fs == [] ==> r == 0.0
    ensures fs != [] ==> r * |fs| as real == SpreadSum(fs) as real
  {
    SpreadSum(fs) as real / Max(|fs|, 1) as real
  }

  lemma {:induction false} SpreadSumBetween(fs: seq<Property>, lo: int, hi: int)
    requires forall i :: 0 <= i < |fs| ==> lo <= Spread(fs[i]) <= hi
    ensures |fs| * lo <= SpreadSum(fs) <= |fs| * hi
  {
    if fs != [] {
      SpreadSumBetween(fs[1..], lo, hi);
    }
  }

  /** The average spread lies between the smallest and the largest spread. */
  lemma AvgSpreadBetween(fs: seq<Property>, lo: int, hi: int)
    requires fs != []
    requires forall i :: 0 <= i < |fs| ==> lo <= Spread(fs[i]) <= hi
    ensures lo as real <= AvgSpread(fs) <= hi as real
  {
    SpreadSumBetween(fs, lo, hi);
    var n := |fs| as real;
    var avg := AvgSpread(fs);
    assert avg * n == SpreadSum(fs) as real;
    assert (lo as real) * n <= avg * n <= (hi as real) * n;
    ScaleBack(lo as real, avg, n);
    ScaleBack(avg, hi as real, n);
  }

  /** Dividing both sides of an inequality by the same positive number. */
  lemma ScaleBack(a: real, b: real, n: real)
    requires n > 0.0 && a * n <= b * n
    ensures a <= b
  {
    assert (b - a) * n == b * n - a * n;
  }

  predicate IsRental(p: Property) {
    p.strategy == StandardRental || p.strategy == Section8
  }

  /** rentals: the Standard Rental and Section 8 properties of the filtered list. */
  function Rentals(fs: seq<Property>): seq<Property> {
    Where(fs, IsRental)
  }

  /** The total rent, a missing rent counting as 0. */
  function RentSum(rs: seq<Property>): int {
    if rs == [] then 0 else rs[0].rent.GetOr(0) + RentSum(rs[1..])
  }

  /** avgRent: the mean rent over the rentals of the filtered list, or 0 when there are none. */
  function AvgRent(fs: seq<Property>): (r: real)
    ensures Rentals(fs) == [] ==> r == 0.0
    ensures Rentals(fs) != [] ==> r * |Rentals(fs)| as real == RentSum(Rentals(fs)) as real
  {
    RentSum(Rentals(fs)) as real / Max(|Rentals(fs)|, 1) as real
  }

  /** Only the rentals enter the rent average: dropping every other property changes nothing. */
  lemma AvgRentOnlyRentals(fs: seq<Property>)
    ensures AvgRent(Rentals(fs)) == AvgRent(fs)
  {
    WhereIdempotent(fs, IsRental);
  }

  lemma {:induction false} RentSumNonNegative(rs: seq<Property>)
    requires forall i :: 0 <= i < |rs| ==> rs[i].rent.GetOr(0) >= 0
    ensures RentSum(rs) >= 0
  {
    if rs != [] {
      RentSumNonNegative(rs[1..]);
    }
  }

  /** With no negative rents, the rent average is never negative. */
  lemma AvgRentNonNegative(fs: seq<Property>)
    requires forall i :: 0 <= i < |fs| ==> fs[i].rent.GetOr(0) >= 0
    ensures AvgRent(fs) >= 0.0
  {
    var rs := Rentals(fs);
    WhereSoundComplete(fs, IsRental);
    forall i | 0 <= i < |rs| ensures rs[i].rent.GetOr(0) >= 0 {
      assert rs[i] in rs;
    }
    RentSumNonNegative(rs);
  }

  // ---------------------------------------------------------------------------
  // The active selection

  /** filteredProperties.some(p => p.id === id) */
  function HasId(fs: seq<Property>, id: int): (r: bool)
    ensures r <==> exists i :: 0 <= i < |fs| && fs[i].id == id
  {
    fs != [] && (fs[0].id == id || HasId(fs[1..], id))
  }

  /** A listed property's id is found among the listed ids. */
  lemma ListedHasId(fs: seq<Property>, p: Property)
    ensures p in fs ==> HasId(fs, p.id)
  {
    if p in fs {
      var i :| 0 <= i < |fs| && fs[i] == p;
    }
  }

  /** JavaScript truthiness of the selected id: null and 0 are both false. */
  predicate Truthy(selected: Option<int>) {
    selected.Some? && selected.value != 0
  }

  /** activePropertyId: the selection while it is truthy and still listed,
      otherwise the first listed id, otherwise nothing. */
  function ActiveId(fs: seq<Property>, selected: Option<int>): (r: Option<int>)
    ensures r.None? <==> fs == []
    ensures r.Some? ==> HasId(fs, r.value)
    ensures Truthy(selected) && HasId(fs, selected.value) ==> r == selected
    ensures !(Truthy(selected) && HasId(fs, selected.value)) && fs != [] ==> r == Some(fs[0].id)
  {
    if Truthy(selected) && HasId(fs, selected.value) then selected
    else if fs != [] then Some(fs[0].id)
    else None
  }

  /** Selecting a listed property with a truthy id makes it the active one. */
  lemma SelectionSticks(fs: seq<Property>, p: Property)
    requires p in fs && p.id != 0
    ensures ActiveId(fs, Some(p.id)) == Some(p.id)
  {
    ListedHasId(fs, p);
  }

  /** A selected id of 0 counts as no selection at all. */
  lemma ZeroIdIsNoSelection(fs: seq<Property>)
    ensures ActiveId(fs, Some(0)) == ActiveId(fs, None)
  {
  }

  /** The first element of `fs` with this id, if any (filteredProperties.find). */
  function FindById(fs: seq<Property>, id: int): (r: Option<Property>)
    ensures r.Some? <==> HasId(fs, id)
    ensures r.Some? ==> exists i :: 0 <= i < |fs| && fs[i] == r.value && r.value.id == id
                                    && forall j :: 0 <= j < i ==> fs[j].id != id
  {
    if fs == [] then None
    else if fs[0].id == id then Some(fs[0])
    else
      var r := FindById(fs[1..], id);
      if r.Some? then
        var k :| 0 <= k < |fs[1..]| && fs[1..][k] == r.value && r.value.id == id
                 && forall j :: 0 <= j < k ==> fs[1..][j].id != id;
        assert fs[k + 1] == r.value && forall j :: 0 <= j < k + 1 ==> fs[j].id != id by {
          forall j | 0 <= j < k + 1 ensures fs[j].id != id {
            if j > 0 { assert fs[j] == fs[1..][j - 1]; }
          }
        }
        r
      else r
  }

  /** selectedProperty: the listed property carrying the active id. */
  function SelectedProperty(fs: seq<Property>, active: Option<int>): Option<Property> {
    if active.None? then None else FindById(fs, active.value)
  }

  /** There is a selected property exactly when the filtered list is non-empty,
      and it is a listed property carrying the active id. */
  lemma SelectedMatchesActive(fs: seq<Property>, selected: Option<int>)
    ensures SelectedProperty(fs, ActiveId(fs, selected)).Some? <==> fs != []
    ensures SelectedProperty(fs, ActiveId(fs, selected)).Some? ==>
              SelectedProperty(fs, ActiveId(fs, selected)).value in fs
              && Some(SelectedProperty(fs, ActiveId(fs, selected)).value.id) == ActiveId(fs, selected)
  {
  }
}
