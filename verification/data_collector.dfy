/**
  Context classifiers of `src/data_collector.rs`: the fractional hour of the
  day becomes a `TimePeriod`, the month a `Season`, and a weather provider's
  description plus temperature a `Weather`. All three are total, pure
  functions of explicit inputs; reading the clock and calling the weather
  service are left to the caller.
*/
module DataCollector {
  import opened Wrappers

  /** An hour of the day with its fraction, `hour + minute / 60`. */
  type Hour = real

  /** A month as the source stores it: an unsigned 8-bit integer. */
  type Month = m: int | 0 <= m < 256

  /** A temperature in degrees Celsius, passed through untouched. */
  type Temperature = real

  datatype TimePeriod =
    | Dawn(hour: Hour)
    | Morning(hour: Hour)
    | Noon(hour: Hour)
    | Afternoon(hour: Hour)
    | Dusk(hour: Hour)
    | Evening(hour: Hour)
    | Night(hour: Hour)

  datatype Season =
    | Spring(month: Month)
    | Summer(month: Month)
    | Autumn(month: Month)
    | Winter(month: Month)

  /** The eight weather variants; every one of them carries a temperature. */
  datatype Kind = Sunny | Rainy | Windy | Cloudy | Stormy | Hotty | Coldy | Default

  datatype Weather = Weather(kind: Kind, temp: Temperature)

  // ---------------------------------------------------------------------------
  // Time of day
  // ---------------------------------------------------------------------------

  /** The hour the clock reading `hour:minute` stands for. */
  function ClockHour(hour: nat, minute: nat): (h: Hour)
    ensures minute < 60 ==> hour as real <= h < hour as real + 1.0
    ensures minute == 0 <==> h == hour as real
  {
    hour as real + minute as real / 60.0
  }

  /**
    Classifies an hour. The closed ranges overlap at their ends and the first
    one listed wins, so the contract states the result as the half-open
    partition this precedence amounts to: a shared boundary belongs to the
    earlier period.
  */
  function GetTime(h: Hour): (r: TimePeriod)
    ensures r.hour == h
    ensures r.Dawn? <==> 5.0 <= h <= 7.0
    ensures r.Morning? <==> 7.0 < h <= 11.0
    ensures r.Noon? <==> 11.0 < h <= 13.0
    ensures r.Afternoon? <==> 13.0 < h <= 17.0
    ensures r.Dusk? <==> 17.0 < h <= 19.0
    ensures r.Evening? <==> 19.0 < h <= 22.0
    ensures r.Night? <==> h < 5.0 || 22.0 < h
  {
    if 5.0 <= h <= 7.0 then Dawn(h)
    else if 7.0 <= h <= 11.0 then Morning(h)
    else if 11.0 <= h <= 13.0 then Noon(h)
    else if 13.0 <= h <= 17.0 then Afternoon(h)
    else if 17.0 <= h <= 19.0 then Dusk(h)
    else if 19.0 <= h <= 22.0 then Evening(h)
    else Night(h)
  }

  /** Every boundary shared by two ranges goes to the range listed first. */
  lemma SharedBoundaries()
    ensures GetTime(7.0) == Dawn(7.0)
    ensures GetTime(11.0) == Morning(11.0)
    ensures GetTime(13.0) == Noon(13.0)
    ensures GetTime(17.0) == Afternoon(17.0)
    ensures GetTime(19.0) == Dusk(19.0)
    ensures GetTime(22.0) == Evening(22.0)
  {
  }

  /**
    On a clock reading the periods are ranges of the minute of the day
    `m = 60 * hour + minute`: Dawn is 05:00 to 07:00 inclusive, and each later
    period starts one minute after the previous one ends.
  */
  lemma ClockPeriods(hour: nat, minute: nat)
    requires hour < 24 && minute < 60
    ensures var m := 60 * hour + minute;
            var r := GetTime(ClockHour(hour, minute));
            && r.hour == m as real / 60.0
            && (r.Dawn? <==> 300 <= m <= 420)
            && (r.Morning? <==> 420 < m <= 660)
            && (r.Noon? <==> 660 < m <= 780)
            && (r.Afternoon? <==> 780 < m <= 1020)
            && (r.Dusk? <==> 1020 < m <= 1140)
            && (r.Evening? <==> 1140 < m <= 1320)
            && (r.Night? <==> m < 300 || 1320 < m)
  {
  }

  // ---------------------------------------------------------------------------
  // Season
  // ---------------------------------------------------------------------------

  /** Classifies a month; anything that is not 3 to 11, even 0 or 13, is Winter. */
  function GetSeason(month: Month): (r: Season)
    ensures r.month == month
    ensures r.Spring? <==> 3 <= month <= 5
    ensures r.Summer? <==> 6 <= month <= 8
    ensures r.Autumn? <==> 9 <= month <= 11
    ensures r.Winter? <==> month < 3 || 11 < month
  {
    match month
    case 3 | 4 | 5 => Spring(month)
    case 6 | 7 | 8 => Summer(month)
    case 9 | 10 | 11 => Autumn(month)
    case _ => Winter(month)
  }

  /** The season of quarter `q` of the year counted from December. */
  function SeasonOfQuarter(q: nat, month: Month): Season
    requires q < 4
  {
    [Winter(month), Spring(month), Summer(month), Autumn(month)][q]
  }

  /**
    On calendar months the classifier agrees with the arithmetic reading
    "seasons are consecutive quarters of the year starting in December".
  */
  lemma SeasonIsQuarter(month: Month)
    requires 1 <= month <= 12
    ensures GetSeason(month) == SeasonOfQuarter((month % 12) / 3, month)
  {
  }

  // ---------------------------------------------------------------------------
  // Weather
  // ---------------------------------------------------------------------------

  /**
    Arm `i` of the match on the provider's description, in source order: the
    description it matches and the variant it yields.
  */
  function Entry(i: nat): (e: (string, Kind))
    requires i < 50
    ensures e.1 != Hotty && e.1 != Coldy && e.1 != Default
  {
    match i
    case 0 => ("Sunny", Sunny)
    case 1 => ("Partly cloudy", Cloudy)
    case 2 => ("Cloudy", Cloudy)
    case 3 => ("Overcast", Cloudy)
    case 4 => ("Mist", Cloudy)
    case 5 => ("Patchy rain possible", Rainy)
    case 6 => ("Patchy snow possible", Rainy)
    case 7 => ("Patchy sleet possible", Rainy)
    case 8 => ("Patchy freezing drizzle possible", Rainy)
    case 9 => ("Thundery outbreaks possible", Stormy)
    case 10 => ("Blowing snow", Windy)
    case 11 => ("Blizzard", Stormy)
    case 12 => ("Fog", Cloudy)
    case 13 => ("Freezing fog", Cloudy)
    case 14 => ("Patchy light drizzle", Rainy)
    case 15 => ("Light drizzle", Rainy)
    case 16 => ("Freezing drizzle", Rainy)
    case 17 => ("Heavy freezing drizzle", Rainy)
    case 18 => ("Patchy light rain", Rainy)
    case 19 => ("Light rain", Rainy)
    case 20 => ("Moderate rain at times", Rainy)
    case 21 => ("Moderate rain", Rainy)
    case 22 => ("Heavy rain at times", Rainy)
    case 23 => ("Heavy rain", Rainy)
    case 24 => ("Light freezing rain", Rainy)
    case 25 => ("Moderate or heavy freezing rain", Rainy)
    case 26 => ("Light sleet", Rainy)
    case 27 => ("Moderate or heavy sleet", Rainy)
    case 28 => ("Patchy light snow", Rainy)
    case 29 => ("Light snow", Rainy)
    case 30 => ("Patchy moderate snow", Rainy)
    case 31 => ("Moderate snow", Rainy)
    case 32 => ("Patchy heavy snow", Rainy)
    case 33 => ("Heavy snow", Rainy)
    case 34 => ("Ice pellets", Rainy)
    case 35 => ("Light rain shower", Rainy)
    case 36 => ("Moderate or heavy rain shower", Rainy)
    case 37 => ("Torrential rain shower", Rainy)
    case 38 => ("Light sleet showers", Rainy)
    case 39 => ("Moderate or heavy sleet showers", Rainy)
    case 40 => ("Light snow showers", Rainy)
    case 41 => ("Moderate or heavy snow showers", Rainy)
    case 42 => ("Light showers of ice pellets", Rainy)
    case 43 => ("Moderate or heavy showers of ice pellets", Rainy)
    case 44 => ("Patchy light rain with thunder", Stormy)
    case 45 => ("Moderate or heavy rain with thunder", Stormy)
    case 46 => ("Patchy light snow with thunder", Stormy)
    case 47 => ("Moderate or heavy snow with thunder", Stormy)
    case 48 => ("Patchy rain nearby", Rainy)
    case _ => ("Light rain, thunderstorm in vicinity, rain with thunderstorm", Rainy)
  }

  /** The 50 arms as a table, first arm first. */
  function DescriptionTable(): (t: seq<(string, Kind)>)
    ensures |t| == 50
    ensures forall k :: 0 <= k < |t| ==> t[k].1 != Hotty && t[k].1 != Coldy && t[k].1 != Default
  {
    seq(50, i requires 0 <= i < 50 => Entry(i))
  }

  lemma TableIsEntries()
    ensures |DescriptionTable()| == 50
    ensures forall k :: 0 <= k < 50 ==> DescriptionTable()[k] == Entry(k)
  {
  }

  /** The key of some entry of `table` is `desc`. */
  ghost predicate HasKey(table: seq<(string, Kind)>, desc: string)
  {
    exists i :: 0 <= i < |table| && table[i].0 == desc
  }

  /** Entry `i` is the first entry of `table` whose key is `desc`. */
  ghost predicate FirstWithKey(table: seq<(string, Kind)>, i: int, desc: string)
  {
    && 0 <= i < |table| && table[i].0 == desc
    && forall j :: 0 <= j < i ==> table[j].0 != desc
  }

  /**
    First-match lookup of `desc` among the keys of `table`, as a match
    expression tries its arms top to bottom.
  */
  function Lookup(table: seq<(string, Kind)>, desc: string): (r: Option<Kind>)
    ensures r.Some? ==> exists i :: 0 <= i < |table| && table[i] == (desc, r.value)
  {
    if |table| == 0 then None
    else if table[0].0 == desc then Some(table[0].1)
    else
      var r := Lookup(table[1..], desc);
      assert r.Some? ==> exists i :: 0 <= i < |table| && table[i] == (desc, r.value) by {
        if r.Some? {
          var i :| 0 <= i < |table[1..]| && table[1..][i] == (desc, r.value);
          assert table[i + 1] == table[1..][i];
        }
      }
      r
  }

  /**
    The lookup finds nothing exactly when no key of the table is `desc`, and
    otherwise returns the variant of the first entry whose key is `desc`.
  */
  lemma {:induction false} LookupSpec(table: seq<(string, Kind)>, desc: string)
    ensures Lookup(table, desc).None? <==> !HasKey(table, desc)
    ensures Lookup(table, desc).Some? ==>
              exists i :: FirstWithKey(table, i, desc) && table[i].1 == Lookup(table, desc).value
  {
    if |table| == 0 {
    } else if table[0].0 == desc {
      assert FirstWithKey(table, 0, desc);
    } else {
      LookupSpec(table[1..], desc);
      var r := Lookup(table[1..], desc);
      if r.Some? {
        var i :| FirstWithKey(table[1..], i, desc) && table[1..][i].1 == r.value;
        assert FirstWithKey(table, i + 1, desc) by {
          forall j | 0 <= j < i + 1 ensures table[j].0 != desc {
            if j > 0 { assert table[j] == table[1..][j - 1]; }
          }
        }
      } else {
        assert !HasKey(table, desc) by {
          forall i | 0 <= i < |table| ensures table[i].0 != desc {
            if i > 0 { assert table[i] == table[1..][i - 1]; }
          }
        }
      }
    }
  }

  /** When entry `j` is the first with key `desc`, the lookup returns its variant. */
  lemma {:induction false} LookupFinds(table: seq<(string, Kind)>, j: nat, desc: string)
    requires FirstWithKey(table, j, desc)
    ensures Lookup(table, desc) == Some(table[j].1)
  {
    if j > 0 {
      assert table[1..][j - 1] == table[j];
      assert FirstWithKey(table[1..], j - 1, desc) by {
        forall k | 0 <= k < j - 1 ensures table[1..][k].0 != desc {
          assert table[1..][k] == table[k + 1];
        }
      }
      LookupFinds(table[1..], j - 1, desc);
    }
  }

  /** No entry of the table yields `Hotty`, `Coldy` or `Default`. */
  lemma TableKinds()
    ensures forall i :: 0 <= i < |DescriptionTable()| ==>
              DescriptionTable()[i].1 != Hotty && DescriptionTable()[i].1 != Coldy
              && DescriptionTable()[i].1 != Default
  {
    TableIsEntries();
  }

  /**
    Classifies a provider description. The temperature is carried unchanged,
    and neither `Hotty` nor `Coldy` is ever produced although both are
    declared.
  */
  function GetWeather(desc: string, temp: Temperature): (r: Weather)
    ensures r.temp == temp
    ensures r.kind != Hotty && r.kind != Coldy
  {
    TableKinds();
    LookupSpec(DescriptionTable(), desc);
    match Lookup(DescriptionTable(), desc)
    case Some(kind) => Weather(kind, temp)
    case None => Weather(Default, temp)
  }

  /**
    The classifier is the table: a description outside it gives `Default`,
    one inside it the variant of the first entry with that description.
  */
  lemma WeatherIsTableLookup(desc: string, temp: Temperature)
    ensures GetWeather(desc, temp).kind == Default <==> !HasKey(DescriptionTable(), desc)
    ensures GetWeather(desc, temp).kind != Default ==>
              exists i :: FirstWithKey(DescriptionTable(), i, desc)
                          && DescriptionTable()[i].1 == GetWeather(desc, temp).kind
  {
    TableKinds();
    LookupSpec(DescriptionTable(), desc);
  }

  /** A blizzard is stormy. */
  lemma BlizzardIsStormy(desc: string, temp: Temperature)
    requires desc == "Blizzard"
    ensures GetWeather(desc, temp) == Weather(Stormy, temp)
  {
    TableIsEntries();
    assert forall k :: 0 <= k < 11 ==> Entry(k).0 != desc;
    LookupFinds(DescriptionTable(), 11, desc);
  }

  /** Blowing snow is only windy. */
  lemma BlowingSnowIsWindy(desc: string, temp: Temperature)
    requires desc == "Blowing snow"
    ensures GetWeather(desc, temp) == Weather(Windy, temp)
  {
    TableIsEntries();
    assert forall k :: 0 <= k < 10 ==> Entry(k).0 != desc;
    LookupFinds(DescriptionTable(), 10, desc);
  }

  /** Heavy snow, with neither wind nor thunder, counts as rain. */
  lemma HeavySnowIsRainy(desc: string, temp: Temperature)
    requires desc == "Heavy snow"
    ensures GetWeather(desc, temp) == Weather(Rainy, temp)
  {
    TableIsEntries();
    assert forall k :: 0 <= k < 33 ==> Entry(k).0 != desc;
    LookupFinds(DescriptionTable(), 33, desc);
  }

  /** Sleet counts as rain. */
  lemma LightSleetIsRainy(desc: string, temp: Temperature)
    requires desc == "Light sleet"
    ensures GetWeather(desc, temp) == Weather(Rainy, temp)
  {
    TableIsEntries();
    assert forall k :: 0 <= k < 26 ==> Entry(k).0 != desc;
    LookupFinds(DescriptionTable(), 26, desc);
  }

  /** The last entry mentions thunderstorms but is classified as rain, not as stormy. */
  lemma ThunderstormInVicinityIsRainy(desc: string, temp: Temperature)
    requires desc == "Light rain, thunderstorm in vicinity, rain with thunderstorm"
    ensures GetWeather(desc, temp) == Weather(Rainy, temp)
  {
    TableIsEntries();
    assert forall k :: 0 <= k < 49 ==> Entry(k).0 != desc;
    LookupFinds(DescriptionTable(), 49, desc);
  }

  /** A description the provider never sends falls through to `Default`. */
  lemma UnknownIsDefault(desc: string, temp: Temperature)
    requires desc == "made-up-string"
    ensures GetWeather(desc, temp) == Weather(Default, temp)
  {
    TableIsEntries();
    assert forall k :: 0 <= k < 50 ==> Entry(k).0 != desc;
    assert !HasKey(DescriptionTable(), desc);
    LookupSpec(DescriptionTable(), desc);
  }
}
