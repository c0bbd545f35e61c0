/** The home-city widget's naming rules
    (`src/components/widgets/HomeGroupWidget.tsx`): the three-letter code
    shown for a city, the capitalised condition label and the hour rule
    that picks the day or night face. */
module HomeGroup {
  import opened Wrappers
  import opened Text

  /** An object literal used as a table: its entries in insertion order,
      which is the order `Object.entries` walks them. */
  type CodeTable = seq<(string, string)>

  /** `cityCodes`: city names and their codes. */
  const CityCodes: CodeTable := [
    ("Melbourne", "MEL"), ("Sydney", "SYD"), ("Brisbane", "BNE"), ("Perth", "PER"),
    ("Adelaide", "ADL"), ("Canberra", "CBR"), ("London", "LON"), ("New York", "NYC"),
    ("Los Angeles", "LAX"), ("San Francisco", "SFO"), ("Chicago", "CHI"), ("Tokyo", "TYO"),
    ("Singapore", "SIN"), ("Hong Kong", "HKG"), ("Dubai", "DXB"), ("Chennai", "MAA"),
    ("Berlin", "BER"), ("Paris", "PAR"), ("Mumbai", "BOM"), ("Delhi", "DEL"),
    ("Bangalore", "BLR"), ("Bengaluru", "BLR"), ("Kolkata", "CCU"), ("Hyderabad", "HYD")
  ]

  /** `timezoneCodes`: time zones and the code of the city they stand for. */
  const TimezoneCodes: CodeTable := [
    ("Australia/Melbourne", "MEL"), ("Australia/Sydney", "SYD"), ("Australia/Brisbane", "BNE"),
    ("Australia/Perth", "PER"), ("Australia/Adelaide", "ADL"), ("Europe/London", "LON"),
    ("America/New_York", "NYC"), ("America/Los_Angeles", "LAX"), ("America/Chicago", "CHI"),
    ("Asia/Tokyo", "TYO"), ("Asia/Singapore", "SIN"), ("Asia/Hong_Kong", "HKG"),
    ("Asia/Dubai", "DXB"), ("Asia/Kolkata", "MAA"), ("Europe/Berlin", "BER"), ("Europe/Paris", "PAR")
  ]

  // ---------------------------------------------------------------------
  // Table lookups

  /** No entry of `table` has the key. */
  predicate KeyAbsent(table: CodeTable, key: string) {
    forall j :: 0 <= j < |table| ==> table[j].0 != key
  }

  /** Index `i` holds the first entry with the key. */
  predicate FirstKeyAt(table: CodeTable, key: string, i: int) {
    0 <= i < |table| && table[i].0 == key && forall j :: 0 <= j < i ==> table[j].0 != key
  }

  /** `table[key]`: the code stored under the key, if any. */
  function Lookup(table: CodeTable, key: string): (r: Option<string>)
    ensures r.None? <==> KeyAbsent(table, key)
    ensures forall i :: FirstKeyAt(table, key, i) ==> r == Some(table[i].1)
    decreases |table|
  {
    if table == [] then None
    else if table[0].0 == key then Some(table[0].1)
    else
      assert forall j :: 0 < j < |table| ==> table[1..][j - 1] == table[j];
      Lookup(table[1..], key)
  }

  /** Entry `i`'s lowercased name occurs in `lowerCity`. */
  predicate ContainedAt(table: CodeTable, lowerCity: string, i: int) {
    0 <= i < |table| && Contains(lowerCity, Lower(table[i].0))
  }

  predicate NoneContained(table: CodeTable, lowerCity: string) {
    forall j :: 0 <= j < |table| ==> !ContainedAt(table, lowerCity, j)
  }

  /** Index `i` holds the first entry whose lowercased name occurs in `lowerCity`. */
  predicate FirstContainedAt(table: CodeTable, lowerCity: string, i: int) {
    ContainedAt(table, lowerCity, i) && forall j :: 0 <= j < i ==> !ContainedAt(table, lowerCity, j)
  }

  /** The loop over the entries: the code of the first entry whose
      lowercased name is a substring of `lowerCity`. */
  function FirstContained(table: CodeTable, lowerCity: string): (r: Option<string>)
    ensures r.None? <==> NoneContained(table, lowerCity)
    ensures forall i :: FirstContainedAt(table, lowerCity, i) ==> r == Some(table[i].1)
    decreases |table|
  {
    if table == [] then None
    else if Contains(lowerCity, Lower(table[0].0)) then
      assert ContainedAt(table, lowerCity, 0);
      Some(table[0].1)
    else
      ContainedInTail(table, lowerCity);
      FirstContained(table[1..], lowerCity)
  }

  lemma ContainedInTail(table: CodeTable, lowerCity: string)
    requires table != [] && !ContainedAt(table, lowerCity, 0)
    ensures NoneContained(table[1..], lowerCity) <==> NoneContained(table, lowerCity)
    ensures forall i :: FirstContainedAt(table, lowerCity, i) ==> FirstContainedAt(table[1..], lowerCity, i - 1)
  {
    forall j | 0 < j < |table|
      ensures ContainedAt(table[1..], lowerCity, j - 1) == ContainedAt(table, lowerCity, j)
    {
      assert table[1..][j - 1] == table[j];
    }
    if NoneContained(table[1..], lowerCity) {
      forall j | 0 <= j < |table| ensures !ContainedAt(table, lowerCity, j) {
        if j > 0 { assert !ContainedAt(table[1..], lowerCity, j - 1); }
      }
    }
    if NoneContained(table, lowerCity) {
      forall j | 0 <= j < |table[1..]| ensures !ContainedAt(table[1..], lowerCity, j) {
        assert !ContainedAt(table, lowerCity, j + 1);
      }
    }
    forall i | FirstContainedAt(table, lowerCity, i) ensures FirstContainedAt(table[1..], lowerCity, i - 1) {
      forall j | 0 <= j < i - 1 ensures !ContainedAt(table[1..], lowerCity, j) {
        assert !ContainedAt(table, lowerCity, j + 1);
      }
    }
  }

  function Min(a: int, b: int): int {
    if a <= b then a else b
  }

  // ---------------------------------------------------------------------
  // The city code

  /** The fallback chain of `getCityCode` over its two tables: an exact
      city name decides first; then the first known city whose name occurs
      in the given one, ignoring case; then the time zone; and as a last
      resort the first three characters, uppercased. */
  function CodeFrom(cityCodes: CodeTable, timezoneCodes: CodeTable, city: string, timezone: Option<string>): (code: string)
    ensures forall i :: FirstKeyAt(cityCodes, city, i) ==> code == cityCodes[i].1
    ensures KeyAbsent(cityCodes, city) ==>
      forall i :: FirstContainedAt(cityCodes, Lower(city), i) ==> code == cityCodes[i].1
    ensures KeyAbsent(cityCodes, city) && NoneContained(cityCodes, Lower(city)) ==>
      && (timezone.Some? ==> forall i :: FirstKeyAt(timezoneCodes, timezone.value, i) ==> code == timezoneCodes[i].1)
      && (timezone.None? || KeyAbsent(timezoneCodes, timezone.value) ==>
            code == Upper(city[..Min(3, |city|)]) && |code| == Min(3, |city|))
  {
    var exact := Lookup(cityCodes, city);
    if exact.Some? then exact.value
    else
      var contained := FirstContained(cityCodes, Lower(city));
      if contained.Some? then contained.value
      else
        var byZone := if timezone.Some? then Lookup(timezoneCodes, timezone.value) else None;
        if byZone.Some? then byZone.value
        else Upper(city[..Min(3, |city|)])
  }

  /** `getCityCode`. */
  function GetCityCode(city: string, timezone: Option<string>): string {
    CodeFrom(CityCodes, TimezoneCodes, city, timezone)
  }

  /** An exact name wins whatever the time zone says: Mumbai is BOM even
      in Asia/Kolkata, which the time-zone table maps to MAA. */
  lemma ExactNameBeatsTimezone(timezone: Option<string>)
    ensures GetCityCode("Mumbai", timezone) == "BOM"
    ensures Lookup(TimezoneCodes, "Asia/Kolkata") == Some("MAA")
  {
    assert FirstKeyAt(CityCodes, "Mumbai", 18);
    KolkataZone();
  }

  lemma KolkataZone()
    ensures Lookup(TimezoneCodes, "Asia/Kolkata") == Some("MAA")
  {
    assert FirstKeyAt(TimezoneCodes, "Asia/Kolkata", 13);
  }

  /** A suburb takes the code of the known city its name contains. */
  lemma SuburbTakesCityCode(timezone: Option<string>)
    ensures GetCityCode("South Melbourne", timezone) == "MEL"
  {
    var lowerCity := Lower("South Melbourne");
    assert KeyAbsent(CityCodes, "South Melbourne");
    assert OccursAt(lowerCity, Lower("Melbourne"), 6) by {
      assert lowerCity[6..15] == Lower("Melbourne");
    }
    ContainsAt(lowerCity, Lower("Melbourne"));
    assert FirstContainedAt(CityCodes, lowerCity, 0);
  }

  /** Every known city name has at least five characters. */
  lemma KnownNamesAreLong()
    ensures forall i :: 0 <= i < |CityCodes| ==> |CityCodes[i].0| >= 5
  {
  }

  /** So a name shorter than that matches no known city, neither exactly
      nor by containing one. */
  lemma ShortNamesMatchNoCity(city: string)
    requires |city| < 5
    ensures KeyAbsent(CityCodes, city) && NoneContained(CityCodes, Lower(city))
  {
    KnownNamesAreLong();
    forall i | 0 <= i < |CityCodes| ensures !ContainedAt(CityCodes, Lower(city), i) {
      assert |Lower(CityCodes[i].0)| > |Lower(city)|;
    }
  }

  /** A name shorter than five characters is coded by its time zone, or
      failing that by its first letters. */
  lemma ShortNamesFallBack(city: string, timezone: Option<string>)
    requires |city| < 5
    ensures GetCityCode(city, timezone) ==
      if timezone.Some? && !KeyAbsent(TimezoneCodes, timezone.value) then Lookup(TimezoneCodes, timezone.value).value
      else Upper(city[..Min(3, |city|)])
  {
    ShortNamesMatchNoCity(city);
  }

  /** Kew, a Melbourne suburb, takes its time zone's code. */
  lemma SuburbByTimezone()
    ensures GetCityCode("Kew", Some("Australia/Melbourne")) == "MEL"
  {
    ShortNamesFallBack("Kew", Some("Australia/Melbourne"));
    assert FirstKeyAt(TimezoneCodes, "Australia/Melbourne", 0);
  }

  /** Without a time zone a short name is its own code, uppercased. */
  lemma ShortNameWithoutTimezone()
    ensures GetCityCode("Kew", None) == "KEW"
  {
    KewUppercased();
    ShortNamesFallBack("Kew", None);
  }

  lemma KewUppercased()
    ensures Upper("Kew"[..Min(3, |"Kew"|)]) == "KEW"
  {
    assert "Kew"[..Min(3, |"Kew"|)] == "Kew";
    assert UpperChar('K') == 'K' && UpperChar('e') == 'E' && UpperChar('w') == 'W';
  }

  /** The empty name has the empty code. */
  lemma EmptyNameWithoutTimezone()
    ensures GetCityCode("", None) == ""
  {
    ShortNamesFallBack("", None);
  }

  // ---------------------------------------------------------------------
  // Labels and the day rule

  /** `capitalizeFirst`: the first character uppercased, the rest as given. */
  function CapitalizeFirst(s: string): (r: string)
    ensures |r| == |s|
    ensures s != [] ==> r[0] == UpperChar(s[0]) && r[1..] == s[1..]
  {
    if s == [] then [] else [UpperChar(s[0])] + s[1..]
  }

  /** Capitalising a capitalised label changes nothing. */
  lemma CapitalizeFirstIdempotent(s: string)
    ensures CapitalizeFirst(CapitalizeFirst(s)) == CapitalizeFirst(s)
  {
    if s != [] {
      var c := CapitalizeFirst(s);
      assert UpperChar(UpperChar(s[0])) == UpperChar(s[0]);
      assert c == [c[0]] + c[1..];
    }
  }

  /** The hour rule of `isDaytime`, for the hour read in the city's time
      zone (`None` when it does not parse as a number). */
  function IsDaytime(hour: Option<int>): (day: bool)
    ensures day <==> hour.Some? && 6 <= hour.value < 18
  {
    match hour
    case None => false
    case Some(h) => h >= 6 && h < 18
  }
}
