/** The landing page's hard-coded figures: the three stat cards and the
    featured deal. They are plain constants on the page; the lemma below shows
    they are the figures the deal board computes from its seed listings. */
module HomeFigures {
  import opened Deals
  import SeedFacts

  /** The stat cards: "Active deals", "Hot deals" and "Avg spread" (dollars). */
  const ActiveDeals: int := 8
  const HotDeals: int := 2
  const AvgSpreadShown: int := 99625

  /** The featured deal card: title, "city, state · structure", and the three figures. */
  const FeaturedTitle: string := "1430 Willow St"
  const FeaturedCity: string := "Dallas"
  const FeaturedState: string := "TX"
  const FeaturedStructure: Structure := SingleFamily
  const FeaturedPurchase: int := 218000
  const FeaturedArv: int := 305000
  const FeaturedSpread: int := 87000

  /** The stat cards agree with the unfiltered board, and the featured deal is
      the first seed listing with its spread computed as ARV minus purchase. */
  lemma FiguresMatchSeed()
    ensures ActiveDeals == |Filtered(Seed, All, All, "")|
    ensures HotDeals == HotCount(Filtered(Seed, All, All, ""))
    ensures AvgSpreadShown as real == AvgSpread(Filtered(Seed, All, All, ""))
    ensures FeaturedTitle == Seed[0].address && FeaturedCity == Seed[0].city && FeaturedState == Seed[0].state
    ensures FeaturedStructure == Seed[0].structure
    ensures FeaturedPurchase == Seed[0].price && FeaturedArv == Seed[0].arv
    ensures FeaturedSpread == FeaturedArv - FeaturedPurchase == Spread(Seed[0])
  {
    SeedFacts.UnfilteredStatistics();
  }
}
