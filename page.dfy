/**
 * The dashboard page: its persisted store (the current view and the API
 * URL), the two effects that keep the view and the address bar's `?view=`
 * parameter in step, and the sample heatmap it draws. The bar and pie data
 * the page derives from the products are the same pipelines as
 * `Transforms.TransformProductsForPriceRatingBar` and
 * `Transforms.TransformProductsForCategoryPie`.
 */
module DashboardPage {
  import opened Wrappers
  import opened Js
  import opened SearchParams
  import Transforms

  // ---------------------------------------------------------------------
  // Views
  // ---------------------------------------------------------------------

  /** The three tabs of the page. */
  datatype View = BarView | PieView | HeatmapView

  /** The names a view goes by in the store and in the URL. */
  const ViewNames: seq<string> := ["bar", "pie", "heatmap"]

  function ViewName(v: View): (s: string)
    ensures s in ViewNames
  {
    match v
    case BarView => "bar"
    case PieView => "pie"
    case HeatmapView => "heatmap"
  }

  /** The view a string names, if it names one. */
  function ParseView(s: string): (r: Option<View>)
    ensures r.Some? <==> s in ViewNames
    ensures r.Some? ==> ViewName(r.value) == s
  {
    if s == "bar" then Some(BarView)
    else if s == "pie" then Some(PieView)
    else if s == "heatmap" then Some(HeatmapView)
    else None
  }

  /** Views and their names are in one-to-one correspondence. */
  lemma ViewNameRoundTrip(v: View, s: string)
    ensures ParseView(ViewName(v)) == Some(v)
    ensures ParseView(s) == Some(v) <==> s == ViewName(v)
  {
  }

  /**
   * The view the query asks for: the first `view` parameter, when it is
   * present, non-empty and one of the three names.
   */
  function QueryView(search: seq<Param>): (r: Option<View>)
    ensures r.Some? <==> FirstValue(search, "view").Some? && FirstValue(search, "view").value in ViewNames
    ensures r.Some? ==> ViewName(r.value) == FirstValue(search, "view").value
  {
    var v := FirstValue(search, "view");
    if v.Some? && v.value != "" then ParseView(v.value) else None
  }

  // ---------------------------------------------------------------------
  // The store
  // ---------------------------------------------------------------------

  const DefaultApiUrl := "https://dummyjson.com/products"

  /** The page's store: the selected view and the URL the data is fetched from. */
  class DashboardStore {
    var view: View
    var apiUrl: string

    /** A fresh store holds the bar view and the DummyJSON products URL. */
    constructor()
      ensures view == BarView && apiUrl == DefaultApiUrl
    {
      view := BarView;
      apiUrl := DefaultApiUrl;
    }

    method SetView(v: View)
      modifies this
      ensures view == v && apiUrl == old(apiUrl)
    {
      view := v;
    }

    method SetApiUrl(url: string)
      modifies this
      ensures apiUrl == url && view == old(view)
    {
      apiUrl := url;
    }
  }

  // ---------------------------------------------------------------------
  // The browser's session history
  // ---------------------------------------------------------------------

  /** The tab's session history: its entries and the one being shown. */
  class Window {
    var history: seq<Url>
    var index: nat

    predicate Valid()
      reads this
    {
      index < |history|
    }

    /** `window.location`: the entry being shown. */
    function Location(): Url
      reads this
      requires Valid()
    {
      history[index]
    }

    /** `history.replaceState`: the current entry is overwritten; no entry is added or dropped. */
    method ReplaceState(u: Url)
      requires Valid()
      modifies this
      ensures Valid() && index == old(index)
      ensures history == old(history)[index := u]
    {
      history := history[index := u];
    }
  }

  // ---------------------------------------------------------------------
  // Keeping the view and the URL in step
  // ---------------------------------------------------------------------

  /** The URL with its `view` parameter set to `v`. */
  function WithView(u: Url, v: View): Url {
    u.(params := SetParam(u.params, "view", ViewName(v)))
  }

  /**
   * Setting the view keeps everything but the query, makes the query ask
   * for exactly that view (one `view` pair, which a reload reads back), and
   * leaves the other pairs as they were, in order.
   */
  lemma WithViewReadsBack(u: Url, v: View)
    ensures WithView(u, v).base == u.base && WithView(u, v).fragment == u.fragment
    ensures QueryView(WithView(u, v).params) == Some(v)
    ensures WithoutKey(WithView(u, v).params, "view") == WithoutKey(u.params, "view")
    ensures forall i, j :: 0 <= i < j < |WithView(u, v).params| && WithView(u, v).params[i].key == "view" ==>
              WithView(u, v).params[j].key != "view"
  {
    var ps := SetParam(u.params, "view", ViewName(v));
    SetParamReadsBack(u.params, "view", ViewName(v));
    assert FirstValue(ps, "view") == Some(ViewName(v));
    assert QueryView(ps) == Some(v);
    SetParamKeepsOthers(u.params, "view", ViewName(v));
    SetParamSinglePair(u.params, "view", ViewName(v));
  }

  /** Writing the view twice leaves the URL as writing the second alone would. */
  lemma WithViewTwice(u: Url, a: View, b: View)
    ensures WithView(WithView(u, a), b) == WithView(u, b)
  {
    SetParamTwice(u.params, "view", ViewName(a), ViewName(b));
  }

  /** The first effect: a valid `?view=` in the address bar selects that view; anything else changes nothing. */
  method ApplyViewQuery(store: DashboardStore, window: Window)
    requires window.Valid()
    modifies store
    ensures store.view == QueryView(window.Location().params).GetOr(old(store.view))
    ensures store.apiUrl == old(store.apiUrl)
  {
    var v := FirstValue(window.Location().params, "view");
    if v.Some? && v.value != "" && v.value in ViewNames {
      store.SetView(ParseView(v.value).value);
    }
  }

  /** The second effect: the address bar's `view` parameter is set to `view`, replacing the history entry. */
  method WriteViewToUrl(window: Window, view: View)
    requires window.Valid()
    modifies window
    ensures window.Valid() && window.index == old(window.index)
    ensures window.history == old(window.history)[window.index := WithView(old(window.Location()), view)]
  {
    var newUrl := window.Location();
    newUrl := newUrl.(params := SetParam(newUrl.params, "view", ViewName(view)));
    window.ReplaceState(newUrl);
  }

  /**
   * Mounting the page: the store starts at its defaults; the effects run
   * in order, the second one with the view of the first render; when the
   * first one changed the view, the page renders again and the second
   * effect runs once more with the new view. Afterwards the store shows
   * the view the URL asked for (the bar view when it asked for none), and
   * the URL names exactly that view, with the rest of its query untouched
   * and no history entry added.
   */
  method Mount(window: Window) returns (store: DashboardStore)
    requires window.Valid()
    modifies window
    ensures fresh(store)
    ensures store.view == QueryView(old(window.Location()).params).GetOr(BarView)
    ensures store.apiUrl == DefaultApiUrl
    ensures window.Valid() && window.index == old(window.index) && |window.history| == old(|window.history|)
    ensures window.history == old(window.history)[window.index := WithView(old(window.Location()), store.view)]
    ensures QueryView(window.Location().params) == Some(store.view)
  {
    store := new DashboardStore();
    var rendered := store.view;
    ghost var start := window.Location();
    ApplyViewQuery(store, window);
    WriteViewToUrl(window, rendered);
    if store.view != rendered {
      WriteViewToUrl(window, store.view);
      WithViewTwice(start, rendered, store.view);
    }
    WithViewReadsBack(start, store.view);
  }

  /** Choosing a tab: the store takes the view and the URL follows it. */
  method SelectView(store: DashboardStore, window: Window, v: View)
    requires window.Valid()
    modifies store, window
    ensures store.view == v && store.apiUrl == old(store.apiUrl)
    ensures window.Valid() && window.index == old(window.index)
    ensures window.history == old(window.history)[window.index := WithView(old(window.Location()), v)]
  {
    store.SetView(v);
    WriteViewToUrl(window, v);
  }

  // ---------------------------------------------------------------------
  // The sample heatmap
  // ---------------------------------------------------------------------

  /**
   * Seven rows "Day 1" to "Day 7" of twenty-four hourly cells "0:00" to
   * "23:00", each with a value in 0..99. `random(i, h)` is the value
   * `Math.random()` returns for day `i`, hour `h`.
   */
  function HeatmapData(random: (nat, nat) -> real): (rows: seq<Transforms.HeatRow>)
    requires forall i: nat, h: nat :: 0.0 <= random(i, h) < 1.0
    ensures |rows| == 7
    ensures forall i :: 0 <= i < 7 ==> rows[i].id == "Day " + NatToString(i + 1) && |rows[i].data| == 24
    ensures forall i, h :: 0 <= i < 7 && 0 <= h < 24 ==>
              rows[i].data[h].x == NatToString(h) + ":00" && 0 <= rows[i].data[h].y < 100
  {
    seq(7, i requires 0 <= i < 7 =>
      Transforms.HeatRow("Day " + NatToString(i + 1),
        seq(24, h requires 0 <= h < 24 =>
          Transforms.HeatCell(NatToString(h) + ":00", (random(i, h) * 100.0).Floor))))
  }

  /** Every day of the heatmap carries its own label. */
  lemma DayLabelsDistinct(random: (nat, nat) -> real)
    requires forall i: nat, h: nat :: 0.0 <= random(i, h) < 1.0
    ensures forall i, j :: 0 <= i < j < 7 ==> HeatmapData(random)[i].id != HeatmapData(random)[j].id
  {
    var rows := HeatmapData(random);
    forall i, j | 0 <= i < j < 7 ensures rows[i].id != rows[j].id {
      LabelsDiffer("Day ", "", i + 1, j + 1);
      assert "Day " + NatToString(i + 1) + "" == rows[i].id;
      assert "Day " + NatToString(j + 1) + "" == rows[j].id;
    }
  }

  /** Every hour of a day of the heatmap carries its own label. */
  lemma HourLabelsDistinct(random: (nat, nat) -> real)
    requires forall i: nat, h: nat :: 0.0 <= random(i, h) < 1.0
    ensures forall i, h, k :: 0 <= i < 7 && 0 <= h < k < 24 ==>
              HeatmapData(random)[i].data[h].x != HeatmapData(random)[i].data[k].x
  {
    var rows := HeatmapData(random);
    forall i, h, k | 0 <= i < 7 && 0 <= h < k < 24 ensures rows[i].data[h].x != rows[i].data[k].x {
      SuffixedLabelsDiffer(":00", h, k);
    }
  }

  /** A number printed before a fixed suffix determines the number. */
  lemma SuffixedLabelsDiffer(suffix: string, a: nat, b: nat)
    requires a != b
    ensures NatToString(a) + suffix != NatToString(b) + suffix
  {
    LabelsDiffer("", suffix, a, b);
    assert "" + NatToString(a) + suffix == NatToString(a) + suffix;
    assert "" + NatToString(b) + suffix == NatToString(b) + suffix;
  }

  /** A number printed between a fixed prefix and suffix determines the number. */
  lemma LabelsDiffer(prefix: string, suffix: string, a: nat, b: nat)
    requires a != b
    ensures prefix + NatToString(a) + suffix != prefix + NatToString(b) + suffix
  {
    var x, y := NatToString(a), NatToString(b);
    assert x != y;
    if |x| == |y| {
      assert (prefix + x + suffix)[|prefix|..|prefix| + |x|] == x;
      assert (prefix + y + suffix)[|prefix|..|prefix| + |y|] == y;
    }
  }
}
