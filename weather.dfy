/** The weather hook's translation of the weather service's condition names
    into the dashboard's own conditions (`src/hooks/useWeather.ts`). */
module Weather {
  import opened Text

  /** `WeatherCondition`: the conditions the widgets draw. */
  datatype WeatherCondition = Clear | Clouds | Rain | Snow | Thunderstorm | Fog | Overcast

  /** The condition names the table knows. */
  const KnownConditions: set<string> := {
    "clear", "clouds", "rain", "drizzle", "snow", "thunderstorm", "mist", "fog",
    "haze", "smoke", "dust", "sand", "ash", "squall", "tornado"
  }

  /** `conditionMap`, built for one icon code: cloudy weather whose icon
      code contains "04" is drawn as overcast. */
  function ConditionMap(icon: string): (m: map<string, WeatherCondition>)
    ensures m.Keys == KnownConditions
  {
    map[
      "clear" := Clear,
      "clouds" := if Contains(icon, "04") then Overcast else Clouds,
      "rain" := Rain,
      "drizzle" := Rain,
      "snow" := Snow,
      "thunderstorm" := Thunderstorm,
      "mist" := Fog,
      "fog" := Fog,
      "haze" := Fog,
      "smoke" := Fog,
      "dust" := Fog,
      "sand" := Fog,
      "ash" := Fog,
      "squall" := Rain,
      "tornado" := Thunderstorm
    ]
  }

  /** `mapCondition`: the table's entry, and clouds for a name it does not
      know. Each drawn condition is stated by the names that produce it. */
  function MapCondition(condition: string, icon: string): (r: WeatherCondition)
    ensures r == Clear <==> condition == "clear"
    ensures r == Snow <==> condition == "snow"
    ensures r == Rain <==> condition in {"rain", "drizzle", "squall"}
    ensures r == Thunderstorm <==> condition in {"thunderstorm", "tornado"}
    ensures r == Fog <==> condition in {"mist", "fog", "haze", "smoke", "dust", "sand", "ash"}
    ensures r == Overcast <==> condition == "clouds" && Contains(icon, "04")
    ensures r == Clouds <==> (condition == "clouds" && !Contains(icon, "04")) || condition !in KnownConditions
  {
    var m := ConditionMap(icon);
    if condition in m then m[condition] else Clouds
  }

  /** The icon code matters only for cloudy weather. */
  lemma IconMattersOnlyForClouds(condition: string, icon1: string, icon2: string)
    requires condition != "clouds"
    ensures MapCondition(condition, icon1) == MapCondition(condition, icon2)
  {
  }

  /** Broken clouds (icon 04d) are drawn as overcast, scattered clouds
      (icon 03d) as clouds. */
  lemma CloudIcons()
    ensures MapCondition("clouds", "04d") == Overcast
    ensures MapCondition("clouds", "03d") == Clouds
  {
    assert OccursAt("04d", "04", 0);
    ContainsAt("04d", "04");
    ContainsAt("03d", "04");
    assert !OccursAt("03d", "04", 0) by { assert "03d"[0..2] == "03"; }
    assert !OccursAt("03d", "04", 1) by { assert "03d"[1..3] == "3d"; }
  }
}
