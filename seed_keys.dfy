/** Which seed listings' search keys hold the text "cleveland". */
module SeedKeys {
  import Text
  import opened Deals

  lemma LowerCleveland()
    ensures Text.Lower("Cleveland") == "cleveland"
  {
    assert |Text.Lower("Cleveland")| == 9;
  }

  /** The Cleveland listing's search key holds "cleveland". */
  lemma ClevelandKeyMatches()
    ensures Text.Contains(SearchKey(Seed[5]), "cleveland")
  {
    var a := Seed[5].address + " ";
    var b := " " + Seed[5].state;
    assert Seed[5].address + " " + Seed[5].city + " " + Seed[5].state == a + Seed[5].city + b;
    Text.LowerAppend(a + Seed[5].city, b);
    Text.LowerAppend(a, Seed[5].city);
    LowerCleveland();
    var h := SearchKey(Seed[5]);
    assert h[|a|..|a| + 9] == "cleveland";
    Text.ContainsAt(h, "cleveland", |a|);
  }

  /** A character absent from the three fields (and not a space) is absent
      from the text they are searched by. */
  lemma KeyLacks(p: Property, address: string, city: string, state: string, needle: string, j: int)
    requires p.address == address && p.city == city && p.state == state
    requires 0 <= j < |needle| && 'a' <= needle[j] <= 'z'
    requires needle[j] !in address && needle[j] !in city && needle[j] !in state
    requires (needle[j] as int - 32) as char !in address && (needle[j] as int - 32) as char !in city
    requires (needle[j] as int - 32) as char !in state
    ensures !Text.Contains(SearchKey(p), needle)
  {
    Text.MissingLetter(p.address + " " + p.city + " " + p.state, needle, j, needle[j]);
  }

  /** No other seed listing's search key holds "cleveland": each lacks one of
      its letters, except "55 Grove Place Indianapolis IN", which has no 'c'
      before its 'v' and no 'v' after it. */
  lemma KeyMisses0(p: Property, needle: string)
    requires p.address == "1430 Willow St" && p.city == "Dallas" && p.state == "TX"
    requires 0 < |needle| && needle[0] == 'c'
    ensures !Text.Contains(SearchKey(p), needle)
  {
    KeyLacks(p, "1430 Willow St", "Dallas", "TX", needle, 0);
  }

  lemma KeyMisses1(p: Property, needle: string)
    requires p.address == "8825 Magnolia Cir" && p.city == "Atlanta" && p.state == "GA"
    requires 2 < |needle| && needle[2] == 'e'
    ensures !Text.Contains(SearchKey(p), needle)
  {
    KeyLacks(p, "8825 Magnolia Cir", "Atlanta", "GA", needle, 2);
  }

  lemma KeyMisses2(p: Property, needle: string)
    requires p.address == "4129 Oak Crest Dr" && p.city == "Phoenix" && p.state == "AZ"
    requires 3 < |needle| && needle[3] == 'v'
    ensures !Text.Contains(SearchKey(p), needle)
  {
    KeyLacks(p, "4129 Oak Crest Dr", "Phoenix", "AZ", needle, 3);
  }

  lemma KeyMisses3(p: Property, needle: string)
    requires p.address == "97 Harbor View" && p.city == "Tampa" && p.state == "FL"
    requires 0 < |needle| && needle[0] == 'c'
    ensures !Text.Contains(SearchKey(p), needle)
  {
    KeyLacks(p, "97 Harbor View", "Tampa", "FL", needle, 0);
  }

  lemma KeyMisses4(p: Property, needle: string)
    requires p.address == "607 Parkside Ave" && p.city == "Chicago" && p.state == "IL"
    requires 7 < |needle| && needle[7] == 'n'
    ensures !Text.Contains(SearchKey(p), needle)
  {
    KeyLacks(p, "607 Parkside Ave", "Chicago", "IL", needle, 7);
  }

  lemma KeyMisses6(p: Property, needle: string)
    requires p.address == "55 Grove Place" && p.city == "Indianapolis" && p.state == "IN"
    requires 3 < |needle| && needle[0] == 'c' && needle[3] == 'v'
    ensures !Text.Contains(SearchKey(p), needle)
  {
    var k := "55 Grove Place" + " " + "Indianapolis" + " " + "IN";
    assert 'c' !in k[..9] && 'C' !in k[..9] && 'v' !in k[9..] && 'V' !in k[9..];
    Text.SplitLetters(k, 9, needle, 0, 'c', 3, 'v');
  }

  lemma KeyMisses7(p: Property, needle: string)
    requires p.address == "994 Lakehurst Rd" && p.city == "Charlotte" && p.state == "NC"
    requires 3 < |needle| && needle[3] == 'v'
    ensures !Text.Contains(SearchKey(p), needle)
  {
    KeyLacks(p, "994 Lakehurst Rd", "Charlotte", "NC", needle, 3);
  }
}
