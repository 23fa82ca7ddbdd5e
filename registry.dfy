/**
 * The chart registry: the fixed catalogue of charts the dashboard offers,
 * looked up by name. Each entry names the API it reads, the cache key of
 * its query and the transform applied to the response; the React component
 * that draws it is not modelled.
 */
module Registry {
  import opened Wrappers

  /**
   * Which transform an entry applies to its response. The registry imports
   * its transforms under names the transforms module does not export, so
   * each tag stands for the exported transform that serves the entry's
   * purpose; only `Identity` is the registry's own inline function.
   */
  datatype TransformTag =
    | PriceRatingBar
    | CategoryPie
    | SampleHeatmap
    | BrandCountsBar
    | GenderPie
    | CompletionStatusBar
    | TopReactionsBar
    | HourlyTemperatureLine
    | BreweryStatesBar
    | Identity
    | BaseExperienceScatter
    | LaunchesPerYearArea
    | CartTotalsLine

  /** One registry entry; `multiFetch` is the only chart option any entry sets. */
  datatype ChartConfig = ChartConfig(
    name: string,
    displayName: string,
    endpoint: string,
    queryKey: seq<string>,
    transform: TransformTag,
    multiFetch: bool)

  // The entries, one constant each.

  const BarChart := ChartConfig("Bar Chart", "Price vs Rating (Top 10)",
    "https://dummyjson.com/products", ["products", "bar"], PriceRatingBar, false)
  const PieChart := ChartConfig("Pie Chart", "Category Distribution",
    "https://dummyjson.com/products", ["products", "pie"], CategoryPie, false)
  const HeatmapChart := ChartConfig("Heatmap Chart", "Activity Heatmap (Sample)",
    "", ["heatmap", "sample"], SampleHeatmap, false)
  const BrandBarChart := ChartConfig("Brand Bar Chart", "Top Brands by Product Count",
    "https://dummyjson.com/products", ["products", "brands"], BrandCountsBar, false)
  const GenderPieChart := ChartConfig("Gender Pie Chart", "User Gender Distribution",
    "https://dummyjson.com/users", ["users", "gender"], GenderPie, false)
  const TodoBarChart := ChartConfig("Todo Bar Chart", "Todo Completion Status",
    "https://dummyjson.com/todos", ["todos", "status"], CompletionStatusBar, false)
  const PostBarChart := ChartConfig("Post Bar Chart", "Top Posts by Reactions (Top 5)",
    "https://dummyjson.com/posts", ["posts", "reactions"], TopReactionsBar, false)
  const WeatherLineChart := ChartConfig("Weather Line Chart", "Open-Meteo: Temp Next 24h (London)",
    "https://api.open-meteo.com/v1/forecast?latitude=51.5074&longitude=-0.1278&hourly=temperature_2m&forecast_days=2&timezone=UTC",
    ["open-meteo", "london", "hourly"], HourlyTemperatureLine, false)
  const BreweriesBarChart := ChartConfig("Breweries Bar Chart", "Open Brewery DB: Breweries by State",
    "https://api.openbrewerydb.org/v1/breweries?per_page=200", ["openbrewery", "states"], BreweryStatesBar, false)
  const OpenLibraryDonutChart := ChartConfig("Open Library Donut Chart", "Open Library: Works by Sub-Subject (Science)",
    "https://openlibrary.org/subjects/science.json?limit=200&details=true", ["openlibrary", "science"], Identity, false)
  const PokemonScatter := ChartConfig("Pok\U{00E9}mon Scatter", "Pok\U{00E9}API: Base XP vs ID (First 50)",
    "https://pokeapi.co/api/v2/pokemon?limit=50", ["pokeapi", "first50"], BaseExperienceScatter, true)
  const SpaceXLaunchesArea := ChartConfig("SpaceX Launches Area", "SpaceX: Launches per Year",
    "https://api.spacexdata.com/v5/launches", ["spacex", "launches"], LaunchesPerYearArea, false)
  const CartLineChart := ChartConfig("Cart Line Chart", "Cart Totals Over Time",
    "https://dummyjson.com/carts", ["carts", "totals"], CartTotalsLine, false)

  /** The entries, in registry order. */
  const Charts: seq<ChartConfig> := [
    BarChart, PieChart, HeatmapChart, BrandBarChart,
    GenderPieChart, TodoBarChart, PostBarChart, WeatherLineChart,
    BreweriesBarChart, OpenLibraryDonutChart, PokemonScatter, SpaceXLaunchesArea,
    CartLineChart
  ]

  /**
   * Lookup by name: the first entry with that name, or none when no entry
   * has it.
   */
  function FindByName(charts: seq<ChartConfig>, name: string): (r: Option<ChartConfig>)
    ensures r.None? <==> forall i :: 0 <= i < |charts| ==> charts[i].name != name
    ensures r.Some? ==> exists i :: 0 <= i < |charts| && charts[i] == r.value && r.value.name == name
                                    && forall j :: 0 <= j < i ==> charts[j].name != name
  {
    if charts == [] then None
    else if charts[0].name == name then Some(charts[0])
    else
      var r := FindByName(charts[1..], name);
      if r.Some? then
        var i :| 0 <= i < |charts[1..]| && charts[1..][i] == r.value && r.value.name == name
                 && forall j :: 0 <= j < i ==> charts[1..][j].name != name;
        assert charts[i + 1] == r.value;
        r
      else r
  }

  function GetChartByName(name: string): Option<ChartConfig> {
    FindByName(Charts, name)
  }

  /** The names of the entries, in registry order. */
  function Names(charts: seq<ChartConfig>): (names: seq<string>)
    ensures |names| == |charts|
    ensures forall i :: 0 <= i < |charts| ==> names[i] == charts[i].name
  {
    seq(|charts|, i requires 0 <= i < |charts| => charts[i].name)
  }

  function GetAllChartNames(): seq<string> {
    Names(Charts)
  }

  /** No two entries share a name. */
  ghost predicate DistinctNames(charts: seq<ChartConfig>) {
    forall i, j :: 0 <= i < j < |charts| ==> charts[i].name != charts[j].name
  }

  lemma NamesDistinct()
    ensures DistinctNames(Charts)
  {
  }

  /**
   * With distinct names, every listed name finds its own entry, and a name
   * finds an entry exactly when it is listed.
   */
  lemma {:induction false} FindRoundTrip(charts: seq<ChartConfig>, name: string)
    requires DistinctNames(charts)
    ensures forall i :: 0 <= i < |charts| ==> FindByName(charts, Names(charts)[i]) == Some(charts[i])
    ensures name in Names(charts) <==> FindByName(charts, name).Some?
    ensures FindByName(charts, name).Some? ==> FindByName(charts, name).value.name == name
  {
    forall i | 0 <= i < |charts| ensures FindByName(charts, Names(charts)[i]) == Some(charts[i]) {
      FindsOwnEntry(charts, i);
    }
    if name in Names(charts) {
      var i :| 0 <= i < |charts| && Names(charts)[i] == name;
    }
    if FindByName(charts, name).Some? {
      var i :| 0 <= i < |charts| && charts[i].name == name;
      assert Names(charts)[i] == name;
    }
  }

  /** With distinct names, an entry's name finds that entry. */
  lemma FindsOwnEntry(charts: seq<ChartConfig>, i: nat)
    requires DistinctNames(charts) && i < |charts|
    ensures FindByName(charts, charts[i].name) == Some(charts[i])
  {
    var r := FindByName(charts, charts[i].name);
    var k :| 0 <= k < |charts| && charts[k] == r.value && r.value.name == charts[i].name
             && forall j :: 0 <= j < k ==> charts[j].name != charts[i].name;
    assert k == i;
  }

  /**
   * Every name of `getAllChartNames()` finds its own entry, and a name
   * finds an entry exactly when it is listed.
   */
  lemma NameLookupRoundTrip(name: string)
    ensures forall i :: 0 <= i < |GetAllChartNames()| ==> GetChartByName(GetAllChartNames()[i]) == Some(Charts[i])
    ensures name in GetAllChartNames() <==> GetChartByName(name).Some?
    ensures GetChartByName(name).Some? ==> GetChartByName(name).value.name == name
  {
    NamesDistinct();
    FindRoundTrip(Charts, name);
  }

  /** No two entries share a query key, so their cached responses never mix. */
  lemma QueryKeysDistinct()
    ensures forall i, j :: 0 <= i < j < |Charts| ==> Charts[i].queryKey != Charts[j].queryKey
  {
  }

  /** Only the heatmap, whose data is generated locally, has no endpoint. */
  lemma OnlyHeatmapHasNoEndpoint()
    ensures forall i :: 0 <= i < |Charts| ==> (Charts[i].endpoint == "" <==> Charts[i].name == "Heatmap Chart")
  {
  }

  /** Only the Pokémon scatter fetches each record's details. */
  lemma OnlyPokemonMultiFetch()
    ensures forall i :: 0 <= i < |Charts| ==> (Charts[i].multiFetch <==> Charts[i].name == "Pok\U{00E9}mon Scatter")
  {
  }

  /** The Open Library entry leaves the response to its component. */
  lemma OpenLibraryIsIdentity()
    ensures GetChartByName("Open Library Donut Chart").Some?
    ensures GetChartByName("Open Library Donut Chart").value.transform == Identity
  {
    NamesDistinct();
    FindRoundTrip(Charts, OpenLibraryDonutChart.name);
    assert Names(Charts)[9] == OpenLibraryDonutChart.name;
  }
}
