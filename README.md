# React dashboard, modelled in Dafny

This project models the data side of the React dashboard, a Next.js app that shows
public API data in charts. The modelled parts are:

- **Chart transforms** (`Transforms`, with the shared counting machinery in `Tally`,
  `Sorting`, `Seqs` and `NameValueRows`). These are the thirteen functions that turn a
  raw API body into chart rows: price/rating bars, category and gender pies, brand and
  brewery top-ten counts, todo completion, the top-five posts by reactions, cart totals,
  hourly temperatures, Open Library subject counts, the Pokémon scatter, SpaceX launches
  per year and the sample heatmap.
  - The post sort works in place on the caller's array, as `Array.prototype.sort` does.
  - The counting loops are methods proved against the counter functions.
- **Chart registry** (`Registry`): the list of chart configurations, lookup by name and
  the list of names.
- **Selection store** (`Store`): the zustand store of selected charts and their render
  keys, and its `toggleGraph`.
- **Chart wrapper** (`RenderGate`): the component that gates a chart's `isLoading`
  behind a debounce timer and a toggle delay.
  - Its two effects, their timers and their cleanups are events on a state record.
  - That record is also a class whose methods update it in place.
- **Open Library donut normalisers** (`OpenLibraryDonut` for the Vega chart,
  `OpenLibraryEchartsDonut` for the ECharts chart). Each has its own `toNameValueTable`
  with its own branch order.
- **API proxy** (`Proxy`): the secret-scrubbing `redact` and the `GET` handler, with its
  400, 502 and mirrored answers and its console lines.
- **Dashboard page** (`DashboardPage`): its persisted view/API-URL store, the two effects
  that keep the view and the address bar's `?view=` in step, and its heatmap data.

URL query strings are lists of name/value pairs (`SearchParams`). The module models
`URLSearchParams.get` and `set` as the page and the proxy use them.

JavaScript values that the code inspects dynamically are the `Js.Json` datatype. `Js`
also models:
- truthiness and `??`;
- optional property access;
- `String(x)`, `Number(x)` and `trim`;
- `slice` with negative indices.

Numbers are `JsNumber`: finite reals plus NaN and the infinities.

Where a transform reads a typed field of a DummyJSON-style payload, that payload is a
datatype with `Option` fields for the parts the code tolerates missing.

Where the code mutates state, the model is imperative:
- the counting `for` loops and the nested works/subjects loops are methods with loop
  invariants;
- the `redact` loop over the live parameter list is a method;
- the in-place insertion sort of the posts works on an `array`;
- the stores, the chart wrapper and the browser's session history are classes.

Each such method's `ensures` ties its result or new state to a specification function,
and lemmas prove what the code promises about that function.

## Model

| member | source | states |
|---|---|---|
| Transforms.TransformProductsForPriceRatingBar | dashboard/src/lib/charts/transforms.ts:9-16 | The first ten products (all when fewer, none when the list is missing), in order, each labelled with at most the first twenty characters of its title, with price and rating copied |
| Transforms.PieIsHistogram | dashboard/src/lib/charts/transforms.ts:21-36 | The pie has one slice per distinct category, named by it and valued at its number of occurrences; the slice values add up to the number of products |
| Transforms.TransformProductsForCategoryPie | dashboard/src/lib/charts/transforms.ts:21-36 | The reduce loop over the products builds exactly the pie of their category keys |
| Transforms.TransformUsersForGenderDistributionPie | dashboard/src/lib/charts/transforms.ts:73-84 | The reduce loop over the users builds exactly the pie of their gender keys |
| Transforms.GenerateSampleHeatmapData | dashboard/src/lib/charts/transforms.ts:41-49 | Seven rows "Day 1".."Day 7" of twelve cells labelled every two hours, "0:00" to "22:00", each value an integer in 0..99 |
| Transforms.TransformProductsForBrandCountsBar | dashboard/src/lib/charts/transforms.ts:54-68 | The reduce loop and the sort/slice give exactly the top-ten brand counts, with a missing brand counted as "Unknown" |
| Transforms.BrandCountsAreTopTen | dashboard/src/lib/charts/transforms.ts:54-68 | At most ten brands, each once, each with its number of products, in non-increasing order of count; a brand left out has no more products than any brand shown, and is left out only when ten are shown |
| Transforms.TransformTodosForCompletionStatusBar | dashboard/src/lib/charts/transforms.ts:89-97 | Two bars, Completed and Incomplete, counting the todos whose `completed` is truthy and the others; the two add up to the number of todos |
| Transforms.TransformPostsForTopReactionsBar | dashboard/src/lib/charts/transforms.ts:102-115 | The caller's post array is sorted in place, and the result is the bars of the five posts with the most reactions |
| Transforms.SortByReactions | dashboard/src/lib/charts/transforms.ts:104-109 | The in-place sort leaves the array holding the stable descending sort of its old contents by likes plus dislikes, with a missing count taken as 0 |
| Transforms.InsertNext | dashboard/src/lib/charts/transforms.ts:104-109 | One step of the sort: the sorted prefix grows by the next post, and the rest of the array is untouched |
| Transforms.InsertIntoSorted | dashboard/src/lib/charts/transforms.ts:104-109 | One insertion: `a[..i + 1]` becomes the old prefix with `a[i]` inserted at a position `j` that has a post with at least as many reactions just before it and only posts with fewer after it; the rest of the array is untouched |
| Transforms.OpenGap | dashboard/src/lib/charts/transforms.ts:104-109 | The inner shifting loop: posts with fewer reactions than the one being placed move one slot right, and the gap lands just after the last post with at least as many |
| Transforms.InsertPosition | dashboard/src/lib/charts/transforms.ts:104-109 | Where the shifting loop stops is exactly where the stable sort puts the post |
| Transforms.TopReactionsAreLargest | dashboard/src/lib/charts/transforms.ts:102-115 | At most five bars, one per post shown, with titles cut to twenty characters, in non-increasing order of reactions; a post not shown has no more reactions than any post shown, and is left out only when five are shown |
| Transforms.TopReactionsOrdered | dashboard/src/lib/charts/transforms.ts:104-113 | The bars number min(5, posts), run in non-increasing order of reactions, and have titles of at most twenty characters |
| Transforms.TopReactionsFromPosts | dashboard/src/lib/charts/transforms.ts:104-113 | Every bar is the title prefix and reaction total of a post of the input, and the bars form a sub-multiset of the posts' bars: each post gives at most one |
| Transforms.TopReactionsAreSomeBars | dashboard/src/lib/charts/transforms.ts:104-113 | Sorting and slicing neither invents nor repeats a post: the bars shown are a sub-multiset of the bars of all posts |
| Transforms.TopReactionsDominate | dashboard/src/lib/charts/transforms.ts:104-110 | A post cut off by the slice has no more reactions than any post kept |
| Transforms.TransformCartsForTotalValueLine | dashboard/src/lib/charts/transforms.ts:120-126 | One point per cart, in order, with the cart's id; the total is the cart's when truthy and 0 otherwise |
| Transforms.TransformOpenMeteoForHourlyTemperatureLine | dashboard/src/lib/charts/transforms.ts:131-138 | At most the first 24 hours; each time is characters 11 to 16 of the timestamp; the temperature is the one at the same index, or undefined past the end of the temperature list |
| Transforms.TransformOpenBreweryForStateCountsBar | dashboard/src/lib/charts/transforms.ts:143-154 | The counting loop and the sort/slice give exactly the top-ten state counts of the list (of nothing when the body is not an array) |
| Transforms.StateCountsAreTop | dashboard/src/lib/charts/transforms.ts:151-153 | Sorting and cutting the rows is sorting and cutting the counter: the rows are its ten largest entries |
| Transforms.StateCountsAreTopTen | dashboard/src/lib/charts/transforms.ts:143-154 | At most ten states, each once, each with its number of breweries, in non-increasing order of count |
| Transforms.StateCountsOmitted | dashboard/src/lib/charts/transforms.ts:152-153 | A state left out has no more breweries than any state shown, and is left out only when ten are shown |
| Transforms.StateKeyPrefersProvince | dashboard/src/lib/charts/transforms.ts:147 | `state_province` wins over `state`, which wins over "Unknown"; each is taken exactly when the ones before it are falsy |
| Transforms.TransformOpenLibraryForSubjectWorksDonut | dashboard/src/lib/charts/transforms.ts:159-194 | The nested works/subjects loops and the ranking give exactly the rows of the subject-works specification |
| Transforms.SubjectWorksRowsAreUsable | dashboard/src/lib/charts/transforms.ts:159-194 | Whatever the body, at most twelve rows, each with a non-empty name and a finite positive value, largest first |
| Transforms.WorksBranchCounts | dashboard/src/lib/charts/transforms.ts:174-191 | In the works branch each row is a distinct trimmed subject valued at its number of occurrences; a subject left out occurs no more often than any shown, and only when twelve are shown |
| Transforms.SubjectsTakePrecedence | dashboard/src/lib/charts/transforms.ts:163-172 | A non-empty `subjects` array decides the result whatever `works` holds |
| Transforms.NoListNoRows | dashboard/src/lib/charts/transforms.ts:160-193 | A falsy body, or one with no non-empty `subjects` or `works` array, gives no rows |
| Transforms.SubjectPreferred | dashboard/src/lib/charts/transforms.ts:177-181 | Per work, a `subject` array wins over a `subjects` array, and a work with neither contributes nothing |
| Transforms.TransformPokeApiForBaseExperienceScatter | dashboard/src/lib/charts/transforms.ts:203-207 | No point has an undefined or null `base_experience`: 0 takes its place |
| Transforms.PokemonPointsInOrder | dashboard/src/lib/charts/transforms.ts:202-207 | The points follow the source list entry by entry: a truthy entry appended to the list appends its point to the scatter, and a falsy one adds nothing |
| Transforms.PokemonPointsOfTruthyEntries | dashboard/src/lib/charts/transforms.ts:199-208 | The points are exactly the truthy entries of the chosen list, one each, carrying its id, name and defaulted base experience |
| Transforms.EnrichedTakesPrecedence | dashboard/src/lib/charts/transforms.ts:200-202 | A non-empty `enriched` list decides the result on its own, exactly as if it were the `results` list; with it empty or missing, only `results` counts; a body with neither gives no points |
| Transforms.TransformSpaceXForLaunchesPerYearArea | dashboard/src/lib/charts/transforms.ts:213-226 | The counting loop and the date sort give exactly the per-year points of the launch list (of nothing when the body is not an array) |
| Transforms.LaunchesPerYearCounts | dashboard/src/lib/charts/transforms.ts:216-219 | One point per distinct non-empty year prefix, and the counts add up to the number of launches that have a prefix |
| Transforms.LaunchYearsCounted | dashboard/src/lib/charts/transforms.ts:216-223 | Every point is a year prefix that occurs among the launches, valued at its number of launches |
| Transforms.LaunchesPerYearAscending | dashboard/src/lib/charts/transforms.ts:220-225 | When every prefix is a valid year, the points run from the earliest year to the latest |
| Tally.CountIsHistogram | dashboard/src/lib/charts/transforms.ts:23-30 | The `acc[k] = (acc[k] \|\| 0) + 1` counter holds one entry per distinct key, in order of first appearance, valued at the number of occurrences of the key |
| Tally.CountTotal | dashboard/src/lib/charts/transforms.ts:23-30 | The counts add up to the number of keys counted |
| Tally.CountLength | dashboard/src/lib/charts/transforms.ts:23-30 | The counter has no more entries than there were keys |
| Tally.BumpTotal | dashboard/src/lib/charts/transforms.ts:26 | Every count is positive, and one increment adds exactly one to the total |
| Tally.BumpCounts | dashboard/src/lib/charts/transforms.ts:26 | One increment adds one to the count of its key and leaves every other count alone |
| Tally.BumpKeys | dashboard/src/lib/charts/transforms.ts:26 | One increment adds its key to the key set and nothing else |
| Tally.TopIsLargest | dashboard/src/lib/charts/transforms.ts:62-63 | Sorting by count and slicing keeps min(limit, entries) entries in non-increasing order, and no entry left out has a larger count than one kept |
| Tally.TopHistogram | dashboard/src/lib/charts/transforms.ts:56-63 | The largest counts of the keys are distinct occurring keys, each valued at its occurrences, non-increasing, at most `limit` of them; a key left out occurs no more often than any kept, and only when `limit` are kept |
| Tally.SortDistinct | dashboard/src/lib/charts/transforms.ts:62 | Sorting a counter keeps its keys distinct |
| Tally.CountSize | dashboard/src/lib/charts/transforms.ts:32 | `Object.entries` of the counter has one entry per distinct key |
| Sorting.InsertionSortNonIncreasing | dashboard/src/lib/charts/transforms.ts:62 | Sorting with a comparator that orders by a key gives a result that is non-increasing in that key |
| Sorting.SortDescendingNonIncreasing | dashboard/src/lib/charts/transforms.ts:152 | `sort((a, b) => b.count - a.count)` gives counts in non-increasing order |
| Sorting.PrefixDominates | dashboard/src/lib/charts/transforms.ts:63 | After a descending sort, everything the slice cuts off is no larger than anything it keeps |
| Sorting.InsertionSortSumBy | dashboard/src/lib/charts/transforms.ts:62 | Sorting does not change a sum over the elements |
| Sorting.InsertionSortMap | dashboard/src/lib/charts/transforms.ts:151-152 | Mapping the rows and then sorting is sorting and then mapping, when the comparators agree |
| Sorting.InsertAt | dashboard/src/lib/charts/transforms.ts:104-109 | One insertion puts an element after every element it need not precede and before the first it must, which keeps the sort stable |
| NameValueRows.RankedRows | dashboard/src/components/graphs/openlibrarydonutchart.tsx:39-41 | Filter, descending sort and slice keep only rows that pass the filter, at most `limit` of them, non-increasing; a passing row cut off is no larger than any kept |
| NameValueRows.RankedCounts | dashboard/src/components/graphs/openlibrarydonutchart.tsx:37-41 | When every counter row passes the filter, ranking the counter's rows is taking its largest counts |
| NameValueRows.CountRowsTop | dashboard/src/components/graphs/openlibrarydonutchart.tsx:37-41 | The rows of the largest counts are distinct names from the keys, each valued at its occurrences, non-increasing, at most `limit`; a key left out occurs no more often than any shown |
| NameValueRows.TableRowsKept | dashboard/src/components/graphs/openlibrarydonutchart.tsx:20-24 | A prepared table list fails exactly when an element is null or undefined; otherwise every usable row is kept in its order, none added, none cut |
| NameValueRows.CountNested | dashboard/src/components/graphs/openlibrarydonutchart.tsx:27-36 | The nested loops over works and their subjects build exactly the counter of the non-blank trimmed subject keys |
| NameValueRows.CountEach | dashboard/src/components/graphs/openlibrarydonutchart.tsx:30-35 | The inner loop over one work's subjects adds exactly its non-blank keys to the counter |
| OpenLibraryDonut.ToNameValueTable | dashboard/src/components/graphs/openlibrarydonutchart.tsx:16-73 | The method's branches and loops compute exactly the table specification, including the TypeError of a table list with a missing element |
| OpenLibraryDonut.TableRowsAreUsable | dashboard/src/components/graphs/openlibrarydonutchart.tsx:16-73 | Every row returned has a non-empty name and a finite positive value, and the only failure is a table list with a null or undefined element |
| OpenLibraryDonut.WorksBranchCounts | dashboard/src/components/graphs/openlibrarydonutchart.tsx:27-42 | Each row is a distinct subject of the works' `subject` arrays valued at its occurrences, at most `limit`, largest first; a subject left out occurs no more often than any shown |
| OpenLibraryDonut.EmptyWorksGivesNothing | dashboard/src/components/graphs/openlibrarydonutchart.tsx:27-42 | An empty `works` array gives no rows, even when `subjects` or a root record is present |
| OpenLibraryDonut.SubjectsBranchRanked | dashboard/src/components/graphs/openlibrarydonutchart.tsx:45-51 | The `subjects` branch gives at most `limit` rows, largest value first |
| OpenLibraryDonut.SubjectRowIgnoresKeyAndCount | dashboard/src/components/graphs/openlibrarydonutchart.tsx:47 | A subject's `key` and `count` fields play no part in its row |
| OpenLibraryDonut.TableFirst | dashboard/src/components/graphs/openlibrarydonutchart.tsx:20-24 | A `table` array decides the result: no other field matters and no limit applies |
| OpenLibraryDonut.WorksBeforeSubjects | dashboard/src/components/graphs/openlibrarydonutchart.tsx:27-42 | Without a table array, a `works` array decides the result, even an empty one |
| OpenLibraryDonut.FallbackIsPrefix | dashboard/src/components/graphs/openlibrarydonutchart.tsx:61-70 | The fallback keeps the usable rows of a record array in order: the first `limit` of them for `limit >= 0`, and for a negative `limit` all but the last `-limit` of them, as `slice(0, limit)` does; any other body gives nothing |
| OpenLibraryDonut.RootGivesOneRow | dashboard/src/components/graphs/openlibrarydonutchart.tsx:54-58 | The root record gives at most one row, its untrimmed name and its work count, exactly when both make a usable row |
| OpenLibraryEchartsDonut.ToNameValueTable | dashboard/src/components/graphs/openlibrarydonutchart_echarts.tsx:11-49 | The method's branches and loops compute exactly the table specification, including the TypeError of a table list with a missing element |
| OpenLibraryEchartsDonut.TableRowsAreUsable | dashboard/src/components/graphs/openlibrarydonutchart_echarts.tsx:11-49 | Every row returned has a non-empty name and a finite positive value, and the only failure is a table list with a null or undefined element |
| OpenLibraryEchartsDonut.ListBranchesRanked | dashboard/src/components/graphs/openlibrarydonutchart_echarts.tsx:13-37 | The `subjects` and `works` branches give at most `limit` rows, largest value first |
| OpenLibraryEchartsDonut.WorksBranchCounts | dashboard/src/components/graphs/openlibrarydonutchart_echarts.tsx:23-37 | Each row is a distinct subject valued at its occurrences in the works' `subject` and `subjects` arrays; a subject left out occurs no more often than any shown, and only when `limit` are shown |
| OpenLibraryEchartsDonut.BothArraysCounted | dashboard/src/components/graphs/openlibrarydonutchart_echarts.tsx:26-28 | A work's `subject` and `subjects` arrays are both counted, each entry once |
| OpenLibraryEchartsDonut.SubjectsFirst | dashboard/src/components/graphs/openlibrarydonutchart_echarts.tsx:13-22 | A non-empty `subjects` array decides the result: no other field matters |
| OpenLibraryEchartsDonut.WorksSecond | dashboard/src/components/graphs/openlibrarydonutchart_echarts.tsx:23-37 | Without a non-empty `subjects` array, a non-empty `works` array decides the result |
| OpenLibraryEchartsDonut.TableIgnoresLimit | dashboard/src/components/graphs/openlibrarydonutchart_echarts.tsx:38-42 | A table array is neither sorted nor cut, and the root record is not looked at |
| OpenLibraryEchartsDonut.RootGivesOneRow | dashboard/src/components/graphs/openlibrarydonutchart_echarts.tsx:43-47 | The root record gives at most one row, its trimmed name and its work count, exactly when both make a usable row |
| Registry.FindByName | dashboard/src/lib/charts/registry.ts:181-183 | The lookup gives the first entry with that name, and none exactly when no entry has it |
| Registry.Names | dashboard/src/lib/charts/registry.ts:185-187 | The names list has one name per entry, in registry order |
| Registry.FindRoundTrip | dashboard/src/lib/charts/registry.ts:181-187 | With distinct names, every listed name finds its own entry, and a name finds an entry exactly when it is listed |
| Registry.NamesDistinct | dashboard/src/lib/charts/registry.ts:43-179 | No two registry entries share a name |
| Registry.NameLookupRoundTrip | dashboard/src/lib/charts/registry.ts:43-187 | Every name of `getAllChartNames()` finds its own entry through `getChartByName`, and no other name finds one |
| Registry.QueryKeysDistinct | dashboard/src/lib/charts/registry.ts:43-179 | No two entries share a query key, so their cached responses never mix |
| Registry.OnlyHeatmapHasNoEndpoint | dashboard/src/lib/charts/registry.ts:64-73 | Only the heatmap, whose data is generated locally, has an empty endpoint |
| Registry.OnlyPokemonMultiFetch | dashboard/src/lib/charts/registry.ts:147-157 | Only the Pokémon scatter asks for each record's details |
| Registry.OpenLibraryIsIdentity | dashboard/src/lib/charts/registry.ts:138-146 | The Open Library entry passes the response through unchanged |
| Store.Toggle | dashboard/src/lib/store.ts:12-26 | Toggling a selected name removes every occurrence of it and keeps the keys; toggling an unselected one appends it and raises its render key by one from 0 when absent |
| Store.ToggleKeepsKeysGrowing | dashboard/src/lib/store.ts:12-26 | No render key ever goes down |
| Store.WithoutKeepsOrder | dashboard/src/lib/store.ts:17 | Removing a name keeps the other selected names in their order |
| Store.ToggleNoDuplicates | dashboard/src/lib/store.ts:12-26 | A toggle keeps a selection free of duplicates |
| Store.ToggleOnThenOff | dashboard/src/lib/store.ts:12-26 | Switching an unselected name on and then off gives back the same selection |
| Store.ToggleOffThenOn | dashboard/src/lib/store.ts:12-26 | Switching a selected name off and then on again selects the same names, with that name moved to the end |
| Store.RunCountsToggles | dashboard/src/lib/store.ts:9-28 | From the initial state, a name is selected exactly when it was toggled an odd number of times, its render key counts the times it was switched on, and no name is selected twice |
| Store.SelectionStore.constructor | dashboard/src/lib/store.ts:10-11 | A new store selects nothing and holds no render keys |
| Store.SelectionStore.ToggleGraph | dashboard/src/lib/store.ts:12-26 | The store's new state is the toggle of its old state |
| RenderGate.Mount | dashboard/src/components/graphs/chartwrapper.tsx:16-25 | The first render, with both flags false and no effect run yet, satisfies the gate invariant (during a load the debounce has passed exactly when no timer is pending, otherwise it has passed with no timer; likewise the toggle flag with a positive render key; timers are pending only while mounted, with distinct ids below the next id) |
| RenderGate.Rendered | dashboard/src/components/graphs/chartwrapper.tsx:53-61 | The chart gets every other prop unchanged, the render key, and `isLoading` true exactly when the toggle is not ready or a load is on past its debounce |
| RenderGate.Rerender | dashboard/src/components/graphs/chartwrapper.tsx:16-23 | A render with new props, before its effects run, keeps the gate invariant |
| RenderGate.RunDebounceEffect | dashboard/src/components/graphs/chartwrapper.tsx:28-36 | The debounce effect, with its cleanup of the old timer, keeps the gate invariant |
| RenderGate.RunToggleEffect | dashboard/src/components/graphs/chartwrapper.tsx:39-48 | The toggle effect, with its cleanup of the old timer, keeps the gate invariant |
| RenderGate.RunEffects | dashboard/src/components/graphs/chartwrapper.tsx:28-48 | Running the effects after a commit, in declaration order and each only when its dependencies changed, keeps the gate invariant |
| RenderGate.FireDebounce | dashboard/src/components/graphs/chartwrapper.tsx:34 | A timer firing on the debounce side keeps the gate invariant |
| RenderGate.FireToggle | dashboard/src/components/graphs/chartwrapper.tsx:43 | A timer firing on the toggle side keeps the gate invariant |
| RenderGate.AfterUnmount | dashboard/src/components/graphs/chartwrapper.tsx:35-44 | Unmounting, which runs both cleanups, keeps the gate invariant |
| RenderGate.FirstRenderShowsLoading | dashboard/src/components/graphs/chartwrapper.tsx:24-25 | Before any effect has run, the chart is told it is loading |
| RenderGate.EffectsSettle | dashboard/src/components/graphs/chartwrapper.tsx:28-48 | After the effects, without a load the debounce has passed with no timer armed, and without a positive render key the chart is ready with no timer armed |
| RenderGate.EffectsArmTimers | dashboard/src/components/graphs/chartwrapper.tsx:28-53 | A load that starts resets the debounce and arms its timer; a positive key that appears resets the toggle and arms its timer, and the chart is then told it is loading whatever the load state |
| RenderGate.OnlyTheTimerPassesDebounce | dashboard/src/components/graphs/chartwrapper.tsx:28-36 | During a load the debounce passes only when its pending timer fires, not on a render, an effect re-run or another timer |
| RenderGate.QuickLoadNeverShown | dashboard/src/components/graphs/chartwrapper.tsx:28-53 | A load that ends before its debounce timer fires is never shown as loading while the chart is ready |
| RenderGate.PositiveKeyChangeKeepsToggle | dashboard/src/components/graphs/chartwrapper.tsx:39-48 | Moving the render key between positive values leaves the toggle flag and its timer alone |
| RenderGate.CancelledTimersNeverFire | dashboard/src/components/graphs/chartwrapper.tsx:35-44 | A timer cancelled by a cleanup never sets its flag, after an effect re-run or an unmount |
| RenderGate.ChartWrapper.constructor | dashboard/src/components/graphs/chartwrapper.tsx:16-25 | A mounted wrapper's state is the first-render state |
| RenderGate.ChartWrapper.Render | dashboard/src/components/graphs/chartwrapper.tsx:16-23 | The wrapper's new state is the re-render of its old state with the new props |
| RenderGate.ChartWrapper.CommitEffects | dashboard/src/components/graphs/chartwrapper.tsx:28-48 | The wrapper's new state is its old state after the effects whose dependencies changed |
| RenderGate.ChartWrapper.FireDebounceTimer | dashboard/src/components/graphs/chartwrapper.tsx:34 | The wrapper's new state is its old state after that timer fires |
| RenderGate.ChartWrapper.FireToggleTimer | dashboard/src/components/graphs/chartwrapper.tsx:43 | The wrapper's new state is its old state after that timer fires |
| RenderGate.ChartWrapper.Unmount | dashboard/src/components/graphs/chartwrapper.tsx:35-44 | The wrapper's new state is its old state with both cleanups run |
| SearchParams.FirstValue | dashboard/src/app/page.tsx:56-57 | `get(name)` is the value of the first pair with that name, none when there is none |
| SearchParams.WithoutKey | dashboard/src/app/api/proxy/route.ts:12 | The pairs not named `k`, in order, none of them named `k` |
| SearchParams.SetParamReadsBack | dashboard/src/app/page.tsx:63 | After `set(name, value)`, `get(name)` reads `value` back |
| SearchParams.SetParamSinglePair | dashboard/src/app/page.tsx:63 | After `set(name, value)` there is exactly one pair named `name` |
| SearchParams.SetParamKeepsOthers | dashboard/src/app/page.tsx:63 | `set(name, value)` leaves the pairs of every other name as they were, in order |
| SearchParams.SetParamTwice | dashboard/src/app/page.tsx:63 | A second `set` of the same name undoes the first |
| Proxy.Redact | dashboard/src/app/api/proxy/route.ts:6-19 | An unparseable input comes back unchanged; for a parsed URL the loop over the live pair list leaves exactly the scrubbed query (every secret-looking name masked once, its later pairs dropped, other pairs kept), with the rest of the URL unchanged |
| Proxy.ScrubKeepsNames | dashboard/src/app/api/proxy/route.ts:10-14 | Redaction neither adds nor loses a parameter name |
| Proxy.ScrubKeepsPlain | dashboard/src/app/api/proxy/route.ts:10-14 | Pairs with names that look nothing like a secret come out exactly as they went in, in order |
| Proxy.ScrubIsClean | dashboard/src/app/api/proxy/route.ts:10-14 | After redaction every secret-looking value is "REDACTED" and every secret-looking name occurs once |
| Proxy.CleanIsFixed | dashboard/src/app/api/proxy/route.ts:10-14 | A query that is already clean is left as it is |
| Proxy.ScrubIdempotent | dashboard/src/app/api/proxy/route.ts:6-19 | Redacting twice is redacting once |
| Proxy.Attempt | dashboard/src/app/api/proxy/route.ts:37-63 | A failed fetch or body read is the caught error, with status 0 or the upstream status and nothing read; a read body sets status, size, bytes and content type, and the preview line is logged only with `LOG_PROXY_BODIES` at "1" and at most 200000 bytes, cut to 5000 characters |
| Proxy.MirrorHeaders | dashboard/src/app/api/proxy/route.ts:78-82 | The answer carries the upstream content type when not empty, always `cache-control: no-store`, nothing else |
| Proxy.Forward | dashboard/src/app/api/proxy/route.ts:37-84 | A failed fetch or read gives a 502 with the error detail; otherwise the body is mirrored with the upstream status; in both cases the meta line is logged last, with the redacted target |
| Proxy.Get | dashboard/src/app/api/proxy/route.ts:21-85 | A missing or empty `url` gives a 400 with no request sent; otherwise exactly one request goes to the decoded target, with the client's `accept` header (or `*/*`) and the `next-proxy/1.0` user agent, its answer and log are those `Forward` gives, and every parsed URL logged has its secret-looking values masked |
| DashboardPage.ParseView | dashboard/src/app/page.tsx:57-58 | A string names a view exactly when it is "bar", "pie" or "heatmap", and then it is that view's name |
| DashboardPage.ViewNameRoundTrip | dashboard/src/app/page.tsx:21 | Views and their names are in one-to-one correspondence |
| DashboardPage.QueryView | dashboard/src/app/page.tsx:56-58 | The query selects a view exactly when its first `view` value is one of the three names |
| DashboardPage.DashboardStore.constructor | dashboard/src/app/page.tsx:26-36 | A fresh store holds the bar view and the DummyJSON products URL |
| DashboardPage.DashboardStore.SetView | dashboard/src/app/page.tsx:31 | `setView` changes the view and nothing else |
| DashboardPage.DashboardStore.SetApiUrl | dashboard/src/app/page.tsx:32 | `setApiUrl` changes the URL and nothing else |
| DashboardPage.Window.ReplaceState | dashboard/src/app/page.tsx:64 | `replaceState` overwrites the current history entry and adds or drops none |
| DashboardPage.WithViewReadsBack | dashboard/src/app/page.tsx:62-64 | Writing the view keeps everything but the query, leaves one `view` pair that a reload reads back as that view, and keeps the other pairs in order |
| DashboardPage.WithViewTwice | dashboard/src/app/page.tsx:62-64 | Writing the view twice is writing the second view alone |
| DashboardPage.ApplyViewQuery | dashboard/src/app/page.tsx:55-59 | A valid `?view=` selects that view; anything else leaves the store alone |
| DashboardPage.WriteViewToUrl | dashboard/src/app/page.tsx:61-65 | The current history entry becomes the old location with `view` set to the store's view |
| DashboardPage.Mount | dashboard/src/app/page.tsx:26-65 | After mounting, the store shows the view the URL asked for (bar when none), and the URL names exactly that view, with the rest of its query untouched and no entry added |
| DashboardPage.SelectView | dashboard/src/app/page.tsx:61-65 | Choosing a tab sets the store's view and the URL follows it |
| DashboardPage.HeatmapData | dashboard/src/app/page.tsx:96-102 | Seven rows "Day 1".."Day 7" of twenty-four cells "0:00".."23:00", each value an integer in 0..99 |
| DashboardPage.DayLabelsDistinct | dashboard/src/app/page.tsx:96-97 | No two days of the heatmap share a label |
| DashboardPage.HourLabelsDistinct | dashboard/src/app/page.tsx:98-99 | No two cells of a day share an hour label |

## Left out

- URL parsing and serialisation: `new URL` is a parameter that splits the target into base, query pairs and fragment, or marks it unparseable. `redact` returns the split URL, and log lines carry it, without the `toString` serialisation and its percent-encoding.
- `Array.prototype.sort`'s algorithm: with a comparator that is a consistent order every stable sort gives the same result, so the model sorts by stable insertion. With invalid SpaceX dates the comparator gives NaN, and the engine's order is then not determined; the model's is one possible order.
- `decodeURIComponent` is a parameter of `Proxy.Get`; its `URIError` on malformed escapes, and the double decoding a `NextRequest` query already went through, are not modelled.
- The body preview's `TextDecoder` is not modelled: the upstream body arrives with its decoded text.
- `process.hrtime` and the millisecond figure in the meta line are not modelled, and log lines are values rather than formatted strings.
- Responses with a null-body status (204, 304) are mirrored like any other.
- `Object.entries` lists integer-like keys first in ascending order. The model keeps every counter in first-appearance order.
- Floating point is not modelled: numbers are exact reals plus NaN and the infinities. `Number(s)` parses decimal, `0x`/`0o`/`0b` and `Infinity` literals to their exact value, without rounding to the nearest double. `String(n)` of a number is the text the body carried, not derived from the value.
- `new Date(...)` is not modelled: a SpaceX year prefix that is four digits is its year as a natural number, and anything else is an invalid date, which `LaunchesPerYearAscending` leaves out of its claim.
- React Query, `fetchData` and the page's rendering are not part of this model. The page's inline bar and pie data are the same pipelines as `Transforms.TransformProductsForPriceRatingBar` and `Transforms.TransformProductsForCategoryPie`.
- zustand's `persist`: the page store starts from its defaults, as with empty local storage; rehydration is not modelled.
- Rendering, React's scheduling and real time are not modelled: the chart wrapper's timers are ids that fire when the caller says so.
- `Math.random` is a parameter returning values in [0, 1).
- The DummyJSON, Open-Meteo, Open Brewery, PokéAPI and SpaceX bodies are typed payloads. A field the code would read from a missing object, such as `p.title.slice` with no title, is not a reachable input.
- Exceptions that would reach React are not modelled, except the `TypeError` a prepared `table` list with a null element raises in both donut normalisers: that one is the `Failure` of a `Result`.
- The donut components' default `limit` of 12 and their rendering are not part of this model: `limit` is a parameter of the normalisers.
- The secret-name test of `redact` is the `Proxy.Sensitive` predicate, a case-insensitive search for token, key, secret, sig or auth. The scrubbing properties are proved for any name predicate.
- The registry's React components and chart options other than `multiFetch` are not modelled (names, display names, endpoints, query keys and transform tags are).
- Registry.ChartConfig.transform: the tag pairs each entry with the transforms.ts function that serves its purpose (`PriceRatingBar` with `transformProductsForPriceRatingBar`, `CategoryPie` with `transformProductsForCategoryPie`, and so on). The source does not make these pairings. The twelve names that registry.ts:4-17 imports (`transformProductsForBarChart`, `transformProductsForPieChart`, `transformForHeatmap`, `transformProductsForBrandBar`, `transformUsersForGenderPie`, `transformTodosForBar`, `transformPostsForBar`, `transformCartsForLine`, `transformOpenMeteoForLine`, `transformOpenBreweryForBar`, `transformPokeApiForScatter`, `transformSpaceXLaunches`) are not exported by transforms.ts:9-213. As written, those imports either fail the build or bind `undefined`. Only the Open Library entry's inline `(d) => d` (`Identity`) is a transform the source actually supplies. The model therefore does not capture the unresolved imports.
- String positions are Unicode code points, while JavaScript's `slice` counts UTF-16 code units. For text outside the Basic Multilingual Plane (emoji, for instance) the model keeps whole characters where the source can cut a surrogate pair or keep fewer characters. This affects the title cut of `Transforms.TransformProductsForPriceRatingBar` and `Transforms.ReactionBarOf` (and so `Transforms.TopReactions`), the time cut of `Transforms.TransformOpenMeteoForHourlyTemperatureLine`, the year prefix of `Transforms.YearPrefix`, and the 5000-character preview of `Proxy.Attempt`.
- The counters are keyed maps, while the source counts on plain objects with `acc[k] = (acc[k] || 0) + 1`, and `toggleGraph` updates `newKeys[name]` on a plain object. Keys that `Object.prototype` already defines behave differently in the source: a `__proto__` key is not stored, and a key such as `constructor` starts from the inherited function rather than 0. The model counts them like any other key. This affects `Tally.Count`, and through it `Transforms.TransformProductsForCategoryPie`, `Transforms.TransformUsersForGenderDistributionPie`, `Transforms.TransformProductsForBrandCountsBar`, `Transforms.TransformOpenBreweryForStateCountsBar`, `Transforms.TransformSpaceXForLaunchesPerYearArea`, `Transforms.PieIsHistogram`, and the render keys of `Store.Toggle`.
