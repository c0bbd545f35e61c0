/** The city database behind the city pickers (`src/data/cities.ts`): the
    city list, the order in which regions are shown, the grouping of the
    cities by region and the case-insensitive search over them. */
module Cities {
  import opened Seqs
  import opened Text

  datatype CityData = CityData(
    name: string, code: string, country: string, countryCode: string, timezone: string, region: string)

  /** One city without its region: name, code, country, country code, time zone. */
  type CityEntry = (string, string, string, string, string)

  /** The entries of one region's block of the list, in order, each given
      that region. */
  function CitiesIn(region: string, entries: seq<CityEntry>): (r: seq<CityData>)
    ensures |r| == |entries|
    ensures forall c :: c in r ==> c.region == region
    ensures forall i :: 0 <= i < |entries| ==>
      r[i] == CityData(entries[i].0, entries[i].1, entries[i].2, entries[i].3, entries[i].4, region)
  {
    seq(|entries|, i requires 0 <= i < |entries| =>
      var (name, code, country, countryCode, timezone) := entries[i];
      CityData(name, code, country, countryCode, timezone, region))
  }

  const AfricaCities: seq<CityData> := CitiesIn("Africa", [
    ("Cairo", "CAI", "Egypt", "EGY", "Africa/Cairo"),
    ("Johannesburg", "JNB", "South Africa", "ZAF", "Africa/Johannesburg"),
    ("Lagos", "LOS", "Nigeria", "NGA", "Africa/Lagos"),
    ("Nairobi", "NBO", "Kenya", "KEN", "Africa/Nairobi"),
    ("Casablanca", "CAS", "Morocco", "MAR", "Africa/Casablanca"),
    ("Tunis", "TUN", "Tunisia", "TUN", "Africa/Tunis"),
    ("Accra", "ACC", "Ghana", "GHA", "Africa/Accra"),
    ("Addis Ababa", "ADD", "Ethiopia", "ETH", "Africa/Addis_Ababa")
  ])

  const AsiaCities: seq<CityData> := CitiesIn("Asia", [
    ("Tokyo", "TYO", "Japan", "JPN", "Asia/Tokyo"),
    ("Hong Kong", "HKG", "Hong Kong", "HKG", "Asia/Hong_Kong"),
    ("Singapore", "SIN", "Singapore", "SGP", "Asia/Singapore"),
    ("Seoul", "SEL", "South Korea", "KOR", "Asia/Seoul"),
    ("Shanghai", "SHA", "China", "CHN", "Asia/Shanghai"),
    ("Beijing", "BJS", "China", "CHN", "Asia/Shanghai"),
    ("Bangkok", "BKK", "Thailand", "THA", "Asia/Bangkok"),
    ("Manila", "MNL", "Philippines", "PHL", "Asia/Manila"),
    ("Jakarta", "JKT", "Indonesia", "IDN", "Asia/Jakarta"),
    ("Kuala Lumpur", "KUL", "Malaysia", "MYS", "Asia/Kuala_Lumpur"),
    ("Taipei", "TPE", "Taiwan", "TWN", "Asia/Taipei"),
    ("Ho Chi Minh City", "SGN", "Vietnam", "VNM", "Asia/Ho_Chi_Minh")
  ])

  const MiddleEastCities: seq<CityData> := CitiesIn("Middle East", [
    ("Dubai", "DXB", "UAE", "ARE", "Asia/Dubai"),
    ("Riyadh", "RUH", "Saudi Arabia", "SAU", "Asia/Riyadh"),
    ("Tel Aviv", "TLV", "Israel", "ISR", "Asia/Jerusalem"),
    ("Istanbul", "IST", "Turkey", "TUR", "Europe/Istanbul"),
    ("Doha", "DOH", "Qatar", "QAT", "Asia/Qatar"),
    ("Kuwait City", "KWI", "Kuwait", "KWT", "Asia/Kuwait"),
    ("Beirut", "BEY", "Lebanon", "LBN", "Asia/Beirut")
  ])

  const IndianSubcontinentCities: seq<CityData> := CitiesIn("Indian Subcontinent", [
    ("Mumbai", "BOM", "India", "IND", "Asia/Kolkata"),
    ("Delhi", "DEL", "India", "IND", "Asia/Kolkata"),
    ("Bangalore", "BLR", "India", "IND", "Asia/Kolkata"),
    ("Bengaluru", "BLR", "India", "IND", "Asia/Kolkata"),
    ("Chennai", "MAA", "India", "IND", "Asia/Kolkata"),
    ("Kolkata", "CCU", "India", "IND", "Asia/Kolkata"),
    ("Hyderabad", "HYD", "India", "IND", "Asia/Kolkata"),
    ("Pune", "PNQ", "India", "IND", "Asia/Kolkata"),
    ("Karachi", "KHI", "Pakistan", "PAK", "Asia/Karachi"),
    ("Dhaka", "DAC", "Bangladesh", "BGD", "Asia/Dhaka"),
    ("Colombo", "CMB", "Sri Lanka", "LKA", "Asia/Colombo")
  ])

  const EuropeCities: seq<CityData> := CitiesIn("Europe", [
    ("London", "LON", "United Kingdom", "GBR", "Europe/London"),
    ("Paris", "PAR", "France", "FRA", "Europe/Paris"),
    ("Berlin", "BER", "Germany", "DEU", "Europe/Berlin"),
    ("Madrid", "MAD", "Spain", "ESP", "Europe/Madrid"),
    ("Rome", "ROM", "Italy", "ITA", "Europe/Rome"),
    ("Amsterdam", "AMS", "Netherlands", "NLD", "Europe/Amsterdam"),
    ("Brussels", "BRU", "Belgium", "BEL", "Europe/Brussels"),
    ("Vienna", "VIE", "Austria", "AUT", "Europe/Vienna"),
    ("Zurich", "ZRH", "Switzerland", "CHE", "Europe/Zurich"),
    ("Stockholm", "STO", "Sweden", "SWE", "Europe/Stockholm"),
    ("Copenhagen", "CPH", "Denmark", "DNK", "Europe/Copenhagen"),
    ("Oslo", "OSL", "Norway", "NOR", "Europe/Oslo"),
    ("Helsinki", "HEL", "Finland", "FIN", "Europe/Helsinki"),
    ("Warsaw", "WAW", "Poland", "POL", "Europe/Warsaw"),
    ("Prague", "PRG", "Czech Republic", "CZE", "Europe/Prague"),
    ("Budapest", "BUD", "Hungary", "HUN", "Europe/Budapest"),
    ("Athens", "ATH", "Greece", "GRC", "Europe/Athens"),
    ("Lisbon", "LIS", "Portugal", "PRT", "Europe/Lisbon"),
    ("Dublin", "DUB", "Ireland", "IRL", "Europe/Dublin"),
    ("Moscow", "MOW", "Russia", "RUS", "Europe/Moscow")
  ])

  const NorthAmericaCities: seq<CityData> := CitiesIn("North America", [
    ("New York", "NYC", "United States", "USA", "America/New_York"),
    ("Los Angeles", "LAX", "United States", "USA", "America/Los_Angeles"),
    ("Chicago", "CHI", "United States", "USA", "America/Chicago"),
    ("San Francisco", "SFO", "United States", "USA", "America/Los_Angeles"),
    ("Seattle", "SEA", "United States", "USA", "America/Los_Angeles"),
    ("Boston", "BOS", "United States", "USA", "America/New_York"),
    ("Washington DC", "WAS", "United States", "USA", "America/New_York"),
    ("Miami", "MIA", "United States", "USA", "America/New_York"),
    ("Dallas", "DFW", "United States", "USA", "America/Chicago"),
    ("Houston", "HOU", "United States", "USA", "America/Chicago"),
    ("Denver", "DEN", "United States", "USA", "America/Denver"),
    ("Phoenix", "PHX", "United States", "USA", "America/Phoenix"),
    ("Atlanta", "ATL", "United States", "USA", "America/New_York"),
    ("Toronto", "YTO", "Canada", "CAN", "America/Toronto"),
    ("Vancouver", "YVR", "Canada", "CAN", "America/Vancouver"),
    ("Montreal", "YMQ", "Canada", "CAN", "America/Montreal"),
    ("Mexico City", "MEX", "Mexico", "MEX", "America/Mexico_City")
  ])

  const SouthAmericaCities: seq<CityData> := CitiesIn("South America", [
    ("São Paulo", "SAO", "Brazil", "BRA", "America/Sao_Paulo"),
    ("Rio de Janeiro", "RIO", "Brazil", "BRA", "America/Sao_Paulo"),
    ("Buenos Aires", "BUE", "Argentina", "ARG", "America/Argentina/Buenos_Aires"),
    ("Lima", "LIM", "Peru", "PER", "America/Lima"),
    ("Bogotá", "BOG", "Colombia", "COL", "America/Bogota"),
    ("Santiago", "SCL", "Chile", "CHL", "America/Santiago"),
    ("Caracas", "CCS", "Venezuela", "VEN", "America/Caracas")
  ])

  const OceaniaCities: seq<CityData> := CitiesIn("Oceania", [
    ("Sydney", "SYD", "Australia", "AUS", "Australia/Sydney"),
    ("Melbourne", "MEL", "Australia", "AUS", "Australia/Melbourne"),
    ("Brisbane", "BNE", "Australia", "AUS", "Australia/Brisbane"),
    ("Perth", "PER", "Australia", "AUS", "Australia/Perth"),
    ("Adelaide", "ADL", "Australia", "AUS", "Australia/Adelaide"),
    ("Canberra", "CBR", "Australia", "AUS", "Australia/Sydney"),
    ("Auckland", "AKL", "New Zealand", "NZL", "Pacific/Auckland"),
    ("Wellington", "WLG", "New Zealand", "NZL", "Pacific/Auckland"),
    ("Fiji", "NAN", "Fiji", "FJI", "Pacific/Fiji")
  ])

  const PacificCities: seq<CityData> := CitiesIn("Pacific", [
    ("Honolulu", "HNL", "United States", "USA", "Pacific/Honolulu"),
    ("Guam", "GUM", "Guam", "GUM", "Pacific/Guam")
  ])

  /** `CITIES`: the regions' blocks in the order the list has them. */
  const CITIES: seq<CityData> :=
    AfricaCities + AsiaCities + MiddleEastCities + IndianSubcontinentCities + EuropeCities +
    NorthAmericaCities + SouthAmericaCities + OceaniaCities + PacificCities

  /** The order in which the pickers list the regions. */
  const REGION_ORDER: seq<string> := [
    "Oceania", "Asia", "Indian Subcontinent", "Middle East", "Europe",
    "Africa", "North America", "South America", "Pacific"
  ]

  // ---------------------------------------------------------------------
  // Regions

  predicate NoDuplicates(xs: seq<string>) {
    forall i, j :: 0 <= i < j < |xs| ==> xs[i] != xs[j]
  }

  /** Every city of `cs` has a region listed in `regions`. */
  predicate RegionsListed(cs: seq<CityData>, regions: seq<string>) {
    forall c :: c in cs ==> c.region in regions
  }

  lemma RegionOrderDistinct()
    ensures NoDuplicates(REGION_ORDER)
  {
  }

  /** `REGION_ORDER` names each region once, and every city's region is one
      of them, so walking the regions in that order reaches every city. */
  lemma RegionOrderCoversCities()
    ensures NoDuplicates(REGION_ORDER)
    ensures RegionsListed(CITIES, REGION_ORDER)
  {
    RegionOrderDistinct();
    var r := REGION_ORDER;
    assert r[5] == "Africa" && r[1] == "Asia" && r[3] == "Middle East" && r[2] == "Indian Subcontinent";
    assert r[4] == "Europe" && r[6] == "North America" && r[7] == "South America" && r[0] == "Oceania";
    assert r[8] == "Pacific";
  }

  // ---------------------------------------------------------------------
  // Grouping by region

  function InRegion(region: string): CityData -> bool {
    (c: CityData) => c.region == region
  }

  function RegionsOf(cs: seq<CityData>): set<string> {
    set c | c in cs :: c.region
  }

  /** `groups` is `cs` grouped by region: one bucket per region that occurs,
      holding that region's cities in list order. */
  predicate GroupedByRegion(groups: map<string, seq<CityData>>, cs: seq<CityData>) {
    && groups.Keys == RegionsOf(cs)
    && forall r :: r in groups ==> groups[r] == Filter(cs, InRegion(r))
  }

  /** Groups `cities` the way `getCitiesByRegion` groups the list, adding
      each city at the end of its region's bucket. */
  method GroupByRegion(cities: seq<CityData>) returns (groups: map<string, seq<CityData>>)
    ensures GroupedByRegion(groups, cities)
  {
    groups := map[];
    var i := 0;
    while i < |cities|
      invariant 0 <= i <= |cities|
      invariant GroupedByRegion(groups, cities[..i])
    {
      var city := cities[i];
      ghost var before := groups;
      if city.region !in groups {
        groups := groups[city.region := []];
      }
      groups := groups[city.region := groups[city.region] + [city]];
      GroupNext(cities, i, before, groups);
      i := i + 1;
    }
    assert cities[..i] == cities;
  }

  /** One step of the grouping: the city goes at the end of its region's
      bucket, which is created empty first when missing. */
  lemma GroupStep(prefix: seq<CityData>, city: CityData,
                  before: map<string, seq<CityData>>, after: map<string, seq<CityData>>)
    requires GroupedByRegion(before, prefix)
    requires after == before[city.region :=
      (if city.region in before then before[city.region] else []) + [city]]
    ensures GroupedByRegion(after, prefix + [city])
  {
    RegionsOfSnoc(prefix, city);
    forall r | r in after ensures after[r] == Filter(prefix + [city], InRegion(r)) {
      FilterSnoc(prefix, city, InRegion(r));
      if r == city.region && r !in before {
        EmptyBucket(prefix, r);
      }
    }
  }

  /** `GroupStep` at position `i` of the list. */
  lemma GroupNext(cities: seq<CityData>, i: int,
                  before: map<string, seq<CityData>>, after: map<string, seq<CityData>>)
    requires 0 <= i < |cities| && GroupedByRegion(before, cities[..i])
    requires after == before[cities[i].region :=
      (if cities[i].region in before then before[cities[i].region] else []) + [cities[i]]]
    ensures GroupedByRegion(after, cities[..i + 1])
  {
    assert cities[..i + 1] == cities[..i] + [cities[i]];
    GroupStep(cities[..i], cities[i], before, after);
  }

  lemma RegionsOfSnoc(prefix: seq<CityData>, city: CityData)
    ensures RegionsOf(prefix + [city]) == RegionsOf(prefix) + {city.region}
  {
    forall x | x in RegionsOf(prefix + [city]) ensures x in RegionsOf(prefix) + {city.region} {
      var c :| c in prefix + [city] && c.region == x;
      if c != city { assert c in prefix; }
    }
    assert city in prefix + [city];
    forall x | x in RegionsOf(prefix) ensures x in RegionsOf(prefix + [city]) {
      var c :| c in prefix && c.region == x;
      assert c in prefix + [city];
    }
  }

  /** `getCitiesByRegion`. */
  method GetCitiesByRegion() returns (groups: map<string, seq<CityData>>)
    ensures GroupedByRegion(groups, CITIES)
  {
    groups := GroupByRegion(CITIES);
  }

  /** A region absent from `cs` has no cities in it. */
  lemma EmptyBucket(cs: seq<CityData>, region: string)
    requires region !in RegionsOf(cs)
    ensures Filter(cs, InRegion(region)) == []
  {
  }

  /** The cities in the buckets of `regions`, counted bucket by bucket. */
  function BucketSizes(cs: seq<CityData>, regions: seq<string>): nat
    decreases |regions|
  {
    if regions == [] then 0
    else |Filter(cs, InRegion(regions[0]))| + BucketSizes(cs, regions[1..])
  }

  /** The number of times `x` is listed. */
  function Occurrences(xs: seq<string>, x: string): nat
    decreases |xs|
  {
    if xs == [] then 0 else (if xs[0] == x then 1 else 0) + Occurrences(xs[1..], x)
  }

  lemma {:induction false} OccursOnce(xs: seq<string>, x: string)
    requires NoDuplicates(xs) && x in xs
    ensures Occurrences(xs, x) == 1
    decreases |xs|
  {
    if xs[0] == x {
      NotOccurring(xs[1..], x);
    } else {
      OccursOnce(xs[1..], x);
    }
  }

  lemma {:induction false} NotOccurring(xs: seq<string>, x: string)
    requires x !in xs
    ensures Occurrences(xs, x) == 0
    decreases |xs|
  {
    if xs != [] {
      NotOccurring(xs[1..], x);
    }
  }

  /** Taking the first city off the list shrinks exactly the buckets of its
      region, each by one. */
  lemma {:induction false} BucketSizesOfCons(cs: seq<CityData>, regions: seq<string>)
    requires cs != []
    ensures BucketSizes(cs, regions) == BucketSizes(cs[1..], regions) + Occurrences(regions, cs[0].region)
    decreases |regions|
  {
    if regions != [] {
      BucketSizesOfCons(cs, regions[1..]);
    }
  }

  /** Grouping partitions the cities: over distinct regions that cover every
      city's region, the bucket sizes add up to the number of cities. */
  lemma {:induction false} BucketSizesPartition(cs: seq<CityData>, regions: seq<string>)
    requires NoDuplicates(regions) && RegionsListed(cs, regions)
    ensures BucketSizes(cs, regions) == |cs|
    decreases |cs|
  {
    if cs == [] {
      ZeroBuckets(regions);
    } else {
      BucketSizesOfCons(cs, regions);
      OccursOnce(regions, cs[0].region);
      assert RegionsListed(cs[1..], regions) by {
        assert forall c :: c in cs[1..] ==> c in cs;
      }
      BucketSizesPartition(cs[1..], regions);
    }
  }

  lemma {:induction false} ZeroBuckets(regions: seq<string>)
    ensures BucketSizes([], regions) == 0
    decreases |regions|
  {
    if regions != [] {
      ZeroBuckets(regions[1..]);
    }
  }

  /** Grouping partitions the cities: each lands in the bucket of its own
      region and in no other, each bucket keeps the list's order, and listing the buckets of distinct regions
      that cover the cities shows each city exactly once. */
  lemma GroupingPartitions(cs: seq<CityData>, regions: seq<string>, groups: map<string, seq<CityData>>)
    requires NoDuplicates(regions) && RegionsListed(cs, regions)
    requires GroupedByRegion(groups, cs)
    ensures forall c :: c in cs ==> c.region in groups && c in groups[c.region]
    ensures forall r, c :: r in groups && c in groups[r] ==> c.region == r
    ensures forall r :: r in groups ==> r in regions
    ensures forall r :: r in groups ==> IsSubsequence(groups[r], cs)
    ensures BucketSizes(cs, regions) == |cs|
  {
    BucketSizesPartition(cs, regions);
    forall r | r in groups
      ensures (forall c :: c in groups[r] <==> c in cs && c.region == r) && IsSubsequence(groups[r], cs)
    {
      FilterMembers(cs, InRegion(r));
      FilterIsSubsequence(cs, InRegion(r));
    }
    forall r | r in groups ensures r in regions {
      var c :| c in cs && c.region == r;
      var i :| 0 <= i < |cs| && cs[i] == c;
    }
  }

  /** For the list itself, the buckets are exactly those of `REGION_ORDER`'s
      partition. */
  lemma CitiesByRegionPartition(groups: map<string, seq<CityData>>)
    requires GroupedByRegion(groups, CITIES)
    ensures forall r :: r in groups ==> r in REGION_ORDER
    ensures BucketSizes(CITIES, REGION_ORDER) == |CITIES|
  {
    RegionOrderCoversCities();
    GroupingPartitions(CITIES, REGION_ORDER, groups);
  }

  // ---------------------------------------------------------------------
  // Search

  /** The city's lowercased name, code, country or time zone contains the
      (already lowercased) query. */
  predicate MatchesQuery(lowerQuery: string, city: CityData) {
    || Contains(Lower(city.name), lowerQuery)
    || Contains(Lower(city.code), lowerQuery)
    || Contains(Lower(city.country), lowerQuery)
    || Contains(Lower(city.timezone), lowerQuery)
  }

  function Matching(lowerQuery: string): CityData -> bool {
    (c: CityData) => MatchesQuery(lowerQuery, c)
  }

  /** `searchCities`, over the list `cities`: the cities matching the query,
      ignoring case, in list order and each as often as the list has it. */
  function SearchIn(cities: seq<CityData>, query: string): (r: seq<CityData>)
    ensures forall c :: c in r <==> c in cities && MatchesQuery(Lower(query), c)
    ensures forall c ::
      multiset(r)[c] == if MatchesQuery(Lower(query), c) then multiset(cities)[c] else 0
    ensures IsSubsequence(r, cities)
  {
    FilterIsSubsequence(cities, Matching(Lower(query)));
    FilterMembers(cities, Matching(Lower(query)));
    FilterCounts(cities, Matching(Lower(query)));
    Filter(cities, Matching(Lower(query)))
  }

  /** `searchCities`. */
  function SearchCities(query: string): seq<CityData> {
    SearchIn(CITIES, query)
  }

  /** Every string contains the empty string, so the empty query lists
      every city. */
  lemma SearchEmptyQuery(cities: seq<CityData>)
    ensures SearchIn(cities, "") == cities
  {
    forall i | 0 <= i < |cities| ensures MatchesQuery(Lower(""), cities[i]) {
      assert Lower("") == [];
      assert [] <= Lower(cities[i].name);
    }
    FilterAll(cities, Matching(Lower("")));
  }

  /** The query's case does not matter. */
  lemma SearchIgnoresQueryCase(cities: seq<CityData>, query: string)
    ensures SearchIn(cities, Lower(query)) == SearchIn(cities, query)
  {
    LowerIdempotent(query);
  }

  /** Searching for a city's name, code, country or time zone finds it. */
  lemma SearchFindsOwnFields(cities: seq<CityData>, c: CityData)
    requires c in cities
    ensures c in SearchIn(cities, c.name) && c in SearchIn(cities, c.code)
    ensures c in SearchIn(cities, c.country) && c in SearchIn(cities, c.timezone)
  {
    assert Lower(c.name) <= Lower(c.name) && Lower(c.code) <= Lower(c.code);
    assert Lower(c.country) <= Lower(c.country) && Lower(c.timezone) <= Lower(c.timezone);
  }
}
