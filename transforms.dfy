/**
 * The chart transforms: each turns the parsed body of one public API into
 * the rows a chart draws. Payloads are typed records whose optional parts
 * are `Option`s; `None` stands for a missing, null or falsy value wherever
 * the code reads it through `?.` and `||` / `??`.
 */
module Transforms {
  import opened Wrappers
  import opened Js
  import opened Seqs
  import opened Sorting
  import opened Tally
  import opened NameValueRows

  function Min(a: int, b: int): int {
    if a <= b then a else b
  }

  /** The JSON number 0, as `|| 0` and `?? 0` supply it. */
  const Zero: Json := Num(0.0, "0")

  // ---------------------------------------------------------------------
  // DummyJSON products
  // ---------------------------------------------------------------------

  /** A product; `category` and `brand` are kept as raw values because they become object keys. */
  datatype Product = Product(title: string, price: Json, rating: Json, category: Json, brand: Json)

  /** The body of `/products`; `products` is `None` when absent, null or otherwise falsy. */
  datatype ProductsPayload = ProductsPayload(products: Option<seq<Product>>)

  /** The product list, empty when the payload or its list is missing. */
  function Products(raw: Option<ProductsPayload>): seq<Product> {
    match raw
    case Some(ProductsPayload(Some(ps))) => ps
    case _ => []
  }

  /** One bar of the price / rating chart. */
  datatype PriceRating = PriceRating(id: string, price: Json, rating: Json)

  function PriceRatingOf(p: Product): PriceRating {
    PriceRating(Slice(p.title, 0, 20), p.price, p.rating)
  }

  /**
   * The first ten products, each labelled by the first (at most) twenty
   * characters of its title, with price and rating copied.
   */
  function TransformProductsForPriceRatingBar(raw: Option<ProductsPayload>): (rows: seq<PriceRating>)
    ensures |rows| == Min(10, |Products(raw)|)
    ensures forall i :: 0 <= i < |rows| ==>
              |rows[i].id| == Min(20, |Products(raw)[i].title|)
              && rows[i].id == Products(raw)[i].title[..|rows[i].id|]
              && rows[i].price == Products(raw)[i].price
              && rows[i].rating == Products(raw)[i].rating
  {
    SlicePrefix(Products(raw), 10);
    Map(Slice(Products(raw), 0, 10), PriceRatingOf)
  }

  // ---------------------------------------------------------------------
  // Pies: one slice per distinct key
  // ---------------------------------------------------------------------

  /** One slice of a distribution pie. */
  datatype PieSlice = PieSlice(name: string, value: nat)

  function PieSliceOf(e: Entry): PieSlice {
    PieSlice(e.key, e.count)
  }

  function PieValue(s: PieSlice): int {
    s.value
  }

  /** The entries of the counter of `keys`, as slices. */
  function Pie(keys: seq<string>): seq<PieSlice> {
    Map(Count(keys), PieSliceOf)
  }

  /**
   * A pie has one slice per distinct key, named by the key and valued at
   * its number of occurrences; the values add up to the number of keys.
   */
  lemma PieIsHistogram(keys: seq<string>)
    ensures forall i, j :: 0 <= i < j < |Pie(keys)| ==> Pie(keys)[i].name != Pie(keys)[j].name
    ensures forall i :: 0 <= i < |Pie(keys)| ==>
              Pie(keys)[i].name in keys && Pie(keys)[i].value == multiset(keys)[Pie(keys)[i].name]
    ensures forall k :: k in keys ==> exists i :: 0 <= i < |Pie(keys)| && Pie(keys)[i].name == k
    ensures |Pie(keys)| == |set k | k in keys|
    ensures SumBy(Pie(keys), PieValue) == |keys|
  {
    var t := Count(keys);
    var p := Pie(keys);
    CountIsHistogram(keys);
    assert forall i :: 0 <= i < |t| ==> p[i] == PieSliceOf(t[i]);
    forall i, j | 0 <= i < j < |p| ensures p[i].name != p[j].name {
      assert t[i].key != t[j].key;
    }
    forall i | 0 <= i < |p| ensures p[i].name in keys && p[i].value == multiset(keys)[p[i].name] {
      assert Keys(t)[i] == t[i].key;
    }
    forall k | k in keys ensures exists i :: 0 <= i < |p| && p[i].name == k {
      var i :| 0 <= i < |t| && Keys(t)[i] == k;
      assert p[i].name == k;
    }
    CountSize(keys);
    CountTotal(keys);
    SumOfCounts(t, PieSliceOf, PieValue);
  }

  /** The object key a category becomes: its string form ("undefined" when absent). */
  function CategoryKey(p: Product): string {
    ToJsString(p.category)
  }

  /** Counts products per category, keys in order of first appearance. */
  method TransformProductsForCategoryPie(raw: Option<ProductsPayload>) returns (slices: seq<PieSlice>)
    ensures slices == Pie(Map(Products(raw), CategoryKey))
  {
    var products := Products(raw);
    var acc: seq<Entry> := [];
    for i := 0 to |products|
      invariant acc == Count(Map(products[..i], CategoryKey))
    {
      CountMapStep(products, i, CategoryKey);
      acc := Bump(acc, CategoryKey(products[i]));
    }
    assert products[..|products|] == products;
    slices := Map(acc, PieSliceOf);
  }

  /** A DummyJSON user; only `gender` is read. */
  datatype User = User(gender: Json)

  datatype UsersPayload = UsersPayload(users: Option<seq<User>>)

  function Users(raw: Option<UsersPayload>): seq<User> {
    match raw
    case Some(UsersPayload(Some(us))) => us
    case _ => []
  }

  function GenderKey(u: User): string {
    ToJsString(u.gender)
  }

  /** Counts users per gender, keys in order of first appearance. */
  method TransformUsersForGenderDistributionPie(raw: Option<UsersPayload>) returns (slices: seq<PieSlice>)
    ensures slices == Pie(Map(Users(raw), GenderKey))
  {
    var users := Users(raw);
    var acc: seq<Entry> := [];
    for i := 0 to |users|
      invariant acc == Count(Map(users[..i], GenderKey))
    {
      CountMapStep(users, i, GenderKey);
      acc := Bump(acc, GenderKey(users[i]));
    }
    assert users[..|users|] == users;
    slices := Map(acc, PieSliceOf);
  }

  // ---------------------------------------------------------------------
  // Heatmap sample
  // ---------------------------------------------------------------------

  datatype HeatCell = HeatCell(x: string, y: int)

  datatype HeatRow = HeatRow(id: string, data: seq<HeatCell>)

  /**
   * Seven days of twelve two-hour cells with a random value in 0..99.
   * `random(i, h)` is the value `Math.random()` returns for day `i`, cell `h`.
   */
  function GenerateSampleHeatmapData(random: (nat, nat) -> real): (rows: seq<HeatRow>)
    requires forall i: nat, h: nat :: 0.0 <= random(i, h) < 1.0
    ensures |rows| == 7
    ensures forall i :: 0 <= i < 7 ==> rows[i].id == "Day " + NatToString(i + 1) && |rows[i].data| == 12
    ensures forall i, h :: 0 <= i < 7 && 0 <= h < 12 ==>
              rows[i].data[h].x == NatToString(2 * h) + ":00" && 0 <= rows[i].data[h].y < 100
  {
    seq(7, i requires 0 <= i < 7 =>
      HeatRow("Day " + NatToString(i + 1),
        seq(12, h requires 0 <= h < 12 =>
          HeatCell(NatToString(h * 2) + ":00", (random(i, h) * 100.0).Floor))))
  }

  // ---------------------------------------------------------------------
  // Brands: the ten most common
  // ---------------------------------------------------------------------

  datatype BrandCount = BrandCount(brand: string, count: nat)

  function BrandCountOf(e: Entry): BrandCount {
    BrandCount(e.key, e.count)
  }

  /** A product's brand, or "Unknown" when it has none. */
  function BrandKey(p: Product): string {
    if Truthy(p.brand) then ToJsString(p.brand) else "Unknown"
  }

  /** The counter of `keys`, sorted by count (largest first, stable), cut at ten. */
  function BrandCounts(keys: seq<string>): seq<BrandCount> {
    Map(Top(Count(keys), 10), BrandCountOf)
  }

  /** Counts products per brand and keeps the ten largest counts. */
  method TransformProductsForBrandCountsBar(raw: Option<ProductsPayload>) returns (rows: seq<BrandCount>)
    ensures rows == BrandCounts(Map(Products(raw), BrandKey))
  {
    var products := Products(raw);
    var acc: seq<Entry> := [];
    for i := 0 to |products|
      invariant acc == Count(Map(products[..i], BrandKey))
    {
      CountMapStep(products, i, BrandKey);
      acc := Bump(acc, BrandKey(products[i]));
    }
    assert products[..|products|] == products;
    rows := Map(Top(acc, 10), BrandCountOf);
  }

  /**
   * At most ten brands, each once, each with its number of products, in
   * non-increasing order of count; a brand left out has no more products
   * than any brand shown, and is only left out when ten are shown.
   */
  lemma BrandCountsAreTopTen(keys: seq<string>)
    ensures |BrandCounts(keys)| <= 10
    ensures forall i, j :: 0 <= i < j < |BrandCounts(keys)| ==>
              BrandCounts(keys)[i].brand != BrandCounts(keys)[j].brand
              && BrandCounts(keys)[i].count >= BrandCounts(keys)[j].count
    ensures forall i :: 0 <= i < |BrandCounts(keys)| ==>
              BrandCounts(keys)[i].brand in keys
              && BrandCounts(keys)[i].count == multiset(keys)[BrandCounts(keys)[i].brand]
    ensures forall k :: k in keys && (forall i :: 0 <= i < |BrandCounts(keys)| ==> BrandCounts(keys)[i].brand != k) ==>
              |BrandCounts(keys)| == 10
              && forall i :: 0 <= i < |BrandCounts(keys)| ==> BrandCounts(keys)[i].count >= multiset(keys)[k]
  {
    var top := Top(Count(keys), 10);
    var rows := BrandCounts(keys);
    TopHistogram(keys, 10);
    forall k | k in keys && (forall i :: 0 <= i < |rows| ==> rows[i].brand != k) ensures k !in Keys(top) {
      forall i | 0 <= i < |top| ensures Keys(top)[i] != k {
        assert rows[i].brand == top[i].key;
      }
    }
  }

  // ---------------------------------------------------------------------
  // Todos
  // ---------------------------------------------------------------------

  datatype Todo = Todo(completed: Json)

  datatype TodosPayload = TodosPayload(todos: Option<seq<Todo>>)

  function Todos(raw: Option<TodosPayload>): seq<Todo> {
    match raw
    case Some(TodosPayload(Some(ts))) => ts
    case _ => []
  }

  datatype StatusCount = StatusCount(status: string, count: int)

  predicate IsCompleted(t: Todo) {
    Truthy(t.completed)
  }

  /**
   * Two bars, "Completed" and "Incomplete": the number of todos whose
   * `completed` is truthy and the number of the others, adding up to the
   * number of todos (both 0 when the list is missing).
   */
  function TransformTodosForCompletionStatusBar(raw: Option<TodosPayload>): (rows: seq<StatusCount>)
    ensures |rows| == 2 && rows[0].status == "Completed" && rows[1].status == "Incomplete"
    ensures rows[0].count == multiset(Map(Todos(raw), IsCompleted))[true]
    ensures rows[1].count == multiset(Map(Todos(raw), IsCompleted))[false]
    ensures rows[0].count + rows[1].count == |Todos(raw)|
  {
    var todos := Todos(raw);
    var completed := |Filter(todos, IsCompleted)|;
    FilterCount(todos, IsCompleted);
    [StatusCount("Completed", completed), StatusCount("Incomplete", |todos| - completed)]
  }

  // ---------------------------------------------------------------------
  // Posts: the five with the most reactions
  // ---------------------------------------------------------------------

  datatype Reactions = Reactions(likes: Option<int>, dislikes: Option<int>)

  /** A post; `reactions` is `None` when it is not an object with likes and dislikes. */
  datatype Post = Post(title: string, reactions: Option<Reactions>)

  /** Likes plus dislikes, each missing count read as 0. */
  function ReactionTotal(p: Post): int {
    match p.reactions
    case None => 0
    case Some(r) => r.likes.GetOr(0) + r.dislikes.GetOr(0)
  }

  function TotalKey(p: Post): real {
    ReactionTotal(p) as real
  }

  /** The posts in order of total reactions, largest first, ties in their original order. */
  function SortedByReactions(posts: seq<Post>): seq<Post> {
    InsertionSort(posts, Descending(TotalKey))
  }

  datatype ReactionBar = ReactionBar(title: string, reactions: int)

  function ReactionBarOf(p: Post): ReactionBar {
    ReactionBar(Slice(p.title, 0, 20), ReactionTotal(p))
  }

  /** A bar's reaction total as a sort key. */
  function BarKey(b: ReactionBar): real {
    b.reactions as real
  }

  function TopReactions(posts: seq<Post>): seq<ReactionBar> {
    Map(Slice(SortedByReactions(posts), 0, 5), ReactionBarOf)
  }

  /**
   * Sorts `posts` in place (the caller's array) and returns bars for the
   * first five.
   */
  method TransformPostsForTopReactionsBar(posts: array?<Post>) returns (rows: seq<ReactionBar>)
    modifies posts
    ensures posts != null ==> posts[..] == SortedByReactions(old(posts[..]))
    ensures rows == TopReactions(if posts == null then [] else old(posts[..]))
  {
    if posts == null {
      rows := [];
      return;
    }
    SortByReactions(posts);
    rows := Map(Slice(posts[..], 0, 5), ReactionBarOf);
  }

  /** Stable in-place insertion sort by total reactions, largest first. */
  method SortByReactions(a: array<Post>)
    modifies a
    ensures a[..] == SortedByReactions(old(a[..]))
  {
    ghost var a0 := a[..];
    for i := 0 to a.Length
      invariant a[..i] == SortedByReactions(a0[..i])
      invariant a[i..] == a0[i..]
    {
      InsertNext(a, i, a0);
    }
    assert a0[..a.Length] == a0;
  }

  /** One pass of the outer loop: the post at `i` joins the sorted prefix. */
  method InsertNext(a: array<Post>, i: nat, ghost a0: seq<Post>)
    requires i < a.Length == |a0|
    requires a[..i] == SortedByReactions(a0[..i]) && a[i..] == a0[i..]
    modifies a
    ensures a[..i + 1] == SortedByReactions(a0[..i + 1]) && a[i + 1..] == a0[i + 1..]
  {
    ghost var sorted := a[..i];
    SameSuffix(a[..], a0, i);
    var x := a[i];
    var j := InsertIntoSorted(a, i);
    SortStep(a0, i, sorted, x, j, a[..i + 1]);
  }

  /** Sequences that agree from `i` on agree at `i` and from `i + 1` on. */
  lemma SameSuffix<T>(s: seq<T>, t: seq<T>, i: nat)
    requires i < |s| == |t| && s[i..] == t[i..]
    ensures s[i] == t[i] && s[i + 1..] == t[i + 1..]
  {
    assert s[i..][0] == t[i..][0];
    assert s[i + 1..] == s[i..][1..] && t[i + 1..] == t[i..][1..];
  }

  /** Inserting at the position the inner loop finds extends the sorted prefix by one post. */
  lemma SortStep(a0: seq<Post>, i: nat, sorted: seq<Post>, x: Post, j: nat, b: seq<Post>)
    requires i < |a0| && sorted == SortedByReactions(a0[..i]) && x == a0[i]
    requires j <= i && b == sorted[..j] + [x] + sorted[j..]
    requires j > 0 ==> TotalKey(sorted[j - 1]) >= TotalKey(x)
    requires forall k :: j <= k < i ==> TotalKey(sorted[k]) < TotalKey(x)
    ensures b == SortedByReactions(a0[..i + 1])
  {
    SortDescendingNonIncreasing(a0[..i], TotalKey);
    InsertPosition(x, sorted, j);
    SortedSnoc(a0, i);
  }

  lemma SortedSnoc(s: seq<Post>, i: nat)
    requires i < |s|
    ensures SortedByReactions(s[..i + 1]) == Insert(s[i], SortedByReactions(s[..i]), Descending(TotalKey))
  {
    assert s[..i + 1][..i] == s[..i];
  }

  /**
   * One pass of insertion sort: shifts the posts at the end of `a[..i]`
   * with fewer reactions than `a[i]` one place right and drops `a[i]` into
   * the gap at `j`.
   */
  method InsertIntoSorted(a: array<Post>, i: nat) returns (j: nat)
    requires i < a.Length
    modifies a
    ensures j <= i
    ensures a[..i + 1] == old(a[..i])[..j] + [old(a[i])] + old(a[..i])[j..]
    ensures j > 0 ==> TotalKey(old(a[..i])[j - 1]) >= TotalKey(old(a[i]))
    ensures forall k :: j <= k < i ==> TotalKey(old(a[..i])[k]) < TotalKey(old(a[i]))
    ensures a[i + 1..] == old(a[i + 1..])
  {
    ghost var a0 := a[..];
    var x := a[i];
    j := OpenGap(a, i, x);
    a[j] := x;
    ShiftedInsert(a[..i + 1], a0[..i], x, j);
    AgreeFrom(a[..], a0, i + 1);
  }

  /**
   * The inner loop: moves the posts at the end of `a[..i]` with fewer
   * reactions than `x` one place right, overwriting `a[i]`, and returns the
   * index of the gap it leaves.
   */
  method OpenGap(a: array<Post>, i: nat, x: Post) returns (j: nat)
    requires i < a.Length
    modifies a
    ensures j <= i
    ensures forall k :: 0 <= k < j ==> a[k] == old(a[k])
    ensures forall k :: j < k <= i ==> a[k] == old(a[k - 1])
    ensures forall k :: i < k < a.Length ==> a[k] == old(a[k])
    ensures j > 0 ==> TotalKey(old(a[j - 1])) >= TotalKey(x)
    ensures forall k :: j <= k < i ==> TotalKey(old(a[k])) < TotalKey(x)
  {
    j := i;
    while j > 0 && ReactionTotal(a[j - 1]) < ReactionTotal(x)
      invariant 0 <= j <= i
      invariant forall k :: 0 <= k < j ==> a[k] == old(a[k])
      invariant forall k :: j < k <= i ==> a[k] == old(a[k - 1])
      invariant forall k :: i < k < a.Length ==> a[k] == old(a[k])
      invariant forall k :: j <= k < i ==> TotalKey(old(a[k])) < TotalKey(x)
    {
      a[j] := a[j - 1];
      j := j - 1;
    }
  }

  /** Sequences of one length that agree at every index from `n` on have the same suffix from `n`. */
  lemma AgreeFrom<T>(s: seq<T>, t: seq<T>, n: nat)
    requires n <= |s| == |t|
    requires forall k :: n <= k < |s| ==> s[k] == t[k]
    ensures s[n..] == t[n..]
  {
  }

  /** A sequence that agrees with `sorted` before `j`, holds `x` at `j` and `sorted` shifted by one after it. */
  lemma ShiftedInsert<T>(b: seq<T>, sorted: seq<T>, x: T, j: nat)
    requires |b| == |sorted| + 1 && j <= |sorted|
    requires forall k :: 0 <= k < j ==> b[k] == sorted[k]
    requires b[j] == x
    requires forall k :: j < k < |b| ==> b[k] == sorted[k - 1]
    ensures b == sorted[..j] + [x] + sorted[j..]
  {
    var c := sorted[..j] + [x] + sorted[j..];
    forall k | 0 <= k < |b| ensures b[k] == c[k] {
      if k > j {
        assert c[k] == sorted[j..][k - j - 1];
      }
    }
  }

  /** Where the inner loop stops is where `Insert` puts the post. */
  lemma InsertPosition(x: Post, sorted: seq<Post>, j: nat)
    requires j <= |sorted|
    requires NonIncreasing(sorted, TotalKey)
    requires j > 0 ==> TotalKey(sorted[j - 1]) >= TotalKey(x)
    requires forall k :: j <= k < |sorted| ==> TotalKey(sorted[k]) < TotalKey(x)
    ensures Insert(x, sorted, Descending(TotalKey)) == sorted[..j] + [x] + sorted[j..]
  {
    forall k | 0 <= k < j ensures !Descending(TotalKey)(x, sorted[k]) {
      if k < j - 1 {
        assert TotalKey(sorted[k]) >= TotalKey(sorted[j - 1]);
      }
      assert Descending(TotalKey)(x, sorted[k]) == (TotalKey(x) > TotalKey(sorted[k]));
    }
    InsertAt(x, sorted, Descending(TotalKey), j);
  }

  /**
   * At most five bars, one per post shown, with titles cut to twenty
   * characters, in non-increasing order of reactions; a post not shown has
   * no more reactions than any post shown, and is only left out when five
   * are shown.
   */
  lemma TopReactionsAreLargest(posts: seq<Post>)
    ensures |TopReactions(posts)| == Min(5, |posts|)
    ensures forall i, j :: 0 <= i < j < |TopReactions(posts)| ==>
              TopReactions(posts)[i].reactions >= TopReactions(posts)[j].reactions
    ensures forall i :: 0 <= i < |TopReactions(posts)| ==>
              |TopReactions(posts)[i].title| <= 20 && TopReactions(posts)[i] in Map(posts, ReactionBarOf)
    ensures multiset(TopReactions(posts)) <= multiset(Map(posts, ReactionBarOf))
    ensures forall p :: p in posts && ReactionBarOf(p) !in TopReactions(posts) ==>
              |TopReactions(posts)| == 5
              && forall i :: 0 <= i < |TopReactions(posts)| ==> TopReactions(posts)[i].reactions >= ReactionTotal(p)
  {
    TopReactionsOrdered(posts);
    TopReactionsFromPosts(posts);
    TopReactionsDominate(posts);
  }

  lemma TopReactionsOrdered(posts: seq<Post>)
    ensures |TopReactions(posts)| == Min(5, |posts|)
    ensures forall i, j :: 0 <= i < j < |TopReactions(posts)| ==>
              TopReactions(posts)[i].reactions >= TopReactions(posts)[j].reactions
    ensures forall i :: 0 <= i < |TopReactions(posts)| ==> |TopReactions(posts)[i].title| <= 20
  {
    var sorted := SortedByReactions(posts);
    var shown := Slice(sorted, 0, 5);
    var rows := TopReactions(posts);
    SortDescendingNonIncreasing(posts, TotalKey);
    SlicePrefix(sorted, 5);
    PrefixNonIncreasing(sorted, |shown|, TotalKey);
    forall i, j | 0 <= i < j < |rows| ensures rows[i].reactions >= rows[j].reactions {
      assert TotalKey(shown[i]) >= TotalKey(shown[j]);
    }
  }

  lemma TopReactionsFromPosts(posts: seq<Post>)
    ensures forall i :: 0 <= i < |TopReactions(posts)| ==> TopReactions(posts)[i] in Map(posts, ReactionBarOf)
    ensures multiset(TopReactions(posts)) <= multiset(Map(posts, ReactionBarOf))
  {
    TopReactionsAreSomeBars(posts);
    var shown := Slice(SortedByReactions(posts), 0, 5);
    SlicePrefix(SortedByReactions(posts), 5);
    forall i | 0 <= i < |shown| ensures TopReactions(posts)[i] in Map(posts, ReactionBarOf) {
      assert shown[i] in SortedByReactions(posts);
      assert shown[i] in multiset(posts);
      var k :| 0 <= k < |posts| && posts[k] == shown[i];
      assert Map(posts, ReactionBarOf)[k] == TopReactions(posts)[i];
    }
  }

  /** The bars shown are bars of posts, each post giving at most one. */
  lemma TopReactionsAreSomeBars(posts: seq<Post>)
    ensures multiset(TopReactions(posts)) <= multiset(Map(posts, ReactionBarOf))
  {
    var sorted := SortedByReactions(posts);
    BarOrderAgrees();
    InsertionSortMap(posts, Descending(TotalKey), ReactionBarOf, Descending(BarKey));
    SlicePrefix(sorted, 5);
    MapPrefix(sorted, |Slice(sorted, 0, 5)|, ReactionBarOf);
  }

  /** Bars compare by reactions exactly as their posts do. */
  lemma BarOrderAgrees()
    ensures forall a, b :: Descending(BarKey)(ReactionBarOf(a), ReactionBarOf(b)) == Descending(TotalKey)(a, b)
  {
    forall a, b ensures Descending(BarKey)(ReactionBarOf(a), ReactionBarOf(b)) == Descending(TotalKey)(a, b) {
      assert Descending(BarKey)(ReactionBarOf(a), ReactionBarOf(b)) == (BarKey(ReactionBarOf(a)) > BarKey(ReactionBarOf(b)));
      assert Descending(TotalKey)(a, b) == (TotalKey(a) > TotalKey(b));
    }
  }

  lemma TopReactionsDominate(posts: seq<Post>)
    ensures forall p :: p in posts && ReactionBarOf(p) !in TopReactions(posts) ==>
              |TopReactions(posts)| == 5
              && forall i :: 0 <= i < |TopReactions(posts)| ==> TopReactions(posts)[i].reactions >= ReactionTotal(p)
  {
    var sorted := SortedByReactions(posts);
    var shown := Slice(sorted, 0, 5);
    var rows := TopReactions(posts);
    SortDescendingNonIncreasing(posts, TotalKey);
    SlicePrefix(sorted, 5);
    forall p | p in posts && ReactionBarOf(p) !in rows
      ensures |rows| == 5
      ensures forall i :: 0 <= i < |rows| ==> rows[i].reactions >= ReactionTotal(p)
    {
      forall i | 0 <= i < |shown| ensures shown[i] != p {
        assert rows[i] == ReactionBarOf(shown[i]);
      }
      assert p in multiset(posts);
      assert p in sorted;
      assert p !in sorted[..|shown|];
      PrefixDominates(sorted, |shown|, TotalKey, p);
      forall i | 0 <= i < |rows| ensures rows[i].reactions >= ReactionTotal(p) {
        assert shown[i] in sorted[..|shown|];
      }
    }
  }

  // ---------------------------------------------------------------------
  // Carts
  // ---------------------------------------------------------------------

  datatype Cart = Cart(id: Json, total: Json)

  datatype CartsPayload = CartsPayload(carts: Option<seq<Cart>>)

  function Carts(raw: Option<CartsPayload>): seq<Cart> {
    match raw
    case Some(CartsPayload(Some(cs))) => cs
    case _ => []
  }

  datatype CartTotal = CartTotal(id: Json, total: Json)

  function CartTotalOf(c: Cart): CartTotal {
    CartTotal(c.id, if Truthy(c.total) then c.total else Zero)
  }

  /**
   * One point per cart, in order, with the cart's id; the total is the
   * cart's when truthy and 0 otherwise, so it is never missing.
   */
  function TransformCartsForTotalValueLine(raw: Option<CartsPayload>): (rows: seq<CartTotal>)
    ensures |rows| == |Carts(raw)|
    ensures forall i :: 0 <= i < |rows| ==>
              rows[i].id == Carts(raw)[i].id
              && (Truthy(Carts(raw)[i].total) ==> rows[i].total == Carts(raw)[i].total)
              && (!Truthy(Carts(raw)[i].total) ==> rows[i].total == Zero)
              && !Nullish(rows[i].total)
  {
    Map(Carts(raw), CartTotalOf)
  }

  // ---------------------------------------------------------------------
  // Open-Meteo
  // ---------------------------------------------------------------------

  datatype Hourly = Hourly(time: Option<seq<string>>, temperature_2m: Option<seq<Json>>)

  datatype MeteoPayload = MeteoPayload(hourly: Option<Hourly>)

  function HourlyTimes(raw: Option<MeteoPayload>): seq<string> {
    match raw
    case Some(MeteoPayload(Some(Hourly(Some(ts), _)))) => ts
    case _ => []
  }

  function HourlyTemperatures(raw: Option<MeteoPayload>): seq<Json> {
    match raw
    case Some(MeteoPayload(Some(Hourly(_, Some(ts))))) => ts
    case _ => []
  }

  datatype HourTemp = HourTemp(time: string, temp: Json)

  /**
   * The first 24 hours: the time is characters 11 to 16 of the timestamp
   * (the `HH:MM` of an ISO date-time), the temperature the one at the same
   * index, or undefined when the temperature list is shorter.
   */
  function TransformOpenMeteoForHourlyTemperatureLine(raw: Option<MeteoPayload>): (rows: seq<HourTemp>)
    ensures |rows| == Min(24, |HourlyTimes(raw)|)
    ensures forall i :: 0 <= i < |rows| ==>
              rows[i].time == Slice(HourlyTimes(raw)[i], 11, 16)
              && (|HourlyTimes(raw)[i]| >= 16 ==> rows[i].time == HourlyTimes(raw)[i][11..16])
              && rows[i].temp == (if i < |HourlyTemperatures(raw)| then HourlyTemperatures(raw)[i] else Undefined)
  {
    var hours := HourlyTimes(raw);
    var temps := HourlyTemperatures(raw);
    var shown := Slice(hours, 0, 24);
    SlicePrefix(hours, 24);
    seq(|shown|, i requires 0 <= i < |shown| =>
      HourTemp(Slice(shown[i], 11, 16), if i < |temps| then temps[i] else Undefined))
  }

  // ---------------------------------------------------------------------
  // Open Brewery DB: breweries per state
  // ---------------------------------------------------------------------

  /** A brewery; both fields are raw values, read with `||`. */
  datatype Brewery = Brewery(state_province: Json, state: Json)

  /** The state a brewery is counted under: `state_province`, else `state`, else "Unknown". */
  function StateKey(b: Brewery): string {
    if Truthy(b.state_province) then ToJsString(b.state_province)
    else if Truthy(b.state) then ToJsString(b.state)
    else "Unknown"
  }

  datatype StateCount = StateCount(state: string, count: nat)

  function StateCountOf(e: Entry): StateCount {
    StateCount(e.key, e.count)
  }

  function StateCountKey(c: StateCount): real {
    c.count as real
  }

  /**
   * The rows of the counter of `keys`, sorted by count (largest first,
   * stable) and cut at ten; here the rows are built before sorting.
   */
  function StateCounts(keys: seq<string>): seq<StateCount> {
    Slice(InsertionSort(Map(Count(keys), StateCountOf), Descending(StateCountKey)), 0, 10)
  }

  /** The list when the body is an array (`None` otherwise), counted per state. */
  method TransformOpenBreweryForStateCountsBar(raw: Option<seq<Brewery>>) returns (rows: seq<StateCount>)
    ensures rows == StateCounts(Map(raw.GetOr([]), StateKey))
  {
    var list := raw.GetOr([]);
    var counts: seq<Entry> := [];
    for i := 0 to |list|
      invariant counts == Count(Map(list[..i], StateKey))
    {
      CountMapStep(list, i, StateKey);
      counts := Bump(counts, StateKey(list[i]));
    }
    assert list[..|list|] == list;
    rows := Slice(InsertionSort(Map(counts, StateCountOf), Descending(StateCountKey)), 0, 10);
  }

  /** Sorting the rows is sorting the counter: the rows are its ten largest entries. */
  lemma StateCountsAreTop(keys: seq<string>)
    ensures StateCounts(keys) == Map(Top(Count(keys), 10), StateCountOf)
  {
    var t := Count(keys);
    forall a, b ensures Descending(StateCountKey)(StateCountOf(a), StateCountOf(b)) == Descending(CountKey)(a, b) {
      assert Descending(StateCountKey)(StateCountOf(a), StateCountOf(b)) == (StateCountKey(StateCountOf(a)) > StateCountKey(StateCountOf(b)));
      assert Descending(CountKey)(a, b) == (CountKey(a) > CountKey(b));
    }
    InsertionSortMap(t, Descending(CountKey), StateCountOf, Descending(StateCountKey));
    SliceMap(InsertionSort(t, Descending(CountKey)), 10, StateCountOf);
  }

  /**
   * At most ten states, each once, each with its number of breweries, in
   * non-increasing order of count; a state left out has no more breweries
   * than any state shown, and is only left out when ten are shown.
   */
  lemma StateCountsAreTopTen(keys: seq<string>)
    ensures |StateCounts(keys)| <= 10
    ensures forall i, j :: 0 <= i < j < |StateCounts(keys)| ==>
              StateCounts(keys)[i].state != StateCounts(keys)[j].state
              && StateCounts(keys)[i].count >= StateCounts(keys)[j].count
    ensures forall i :: 0 <= i < |StateCounts(keys)| ==>
              StateCounts(keys)[i].state in keys
              && StateCounts(keys)[i].count == multiset(keys)[StateCounts(keys)[i].state]
    ensures forall k :: k in keys && (forall i :: 0 <= i < |StateCounts(keys)| ==> StateCounts(keys)[i].state != k) ==>
              |StateCounts(keys)| == 10
              && forall i :: 0 <= i < |StateCounts(keys)| ==> StateCounts(keys)[i].count >= multiset(keys)[k]
  {
    var top := Top(Count(keys), 10);
    var rows := StateCounts(keys);
    StateCountsAreTop(keys);
    TopHistogram(keys, 10);
    forall i, j | 0 <= i < j < |rows| ensures rows[i].state != rows[j].state && rows[i].count >= rows[j].count {
      assert rows[i] == StateCountOf(top[i]) && rows[j] == StateCountOf(top[j]);
    }
    forall i | 0 <= i < |rows| ensures rows[i].state in keys && rows[i].count == multiset(keys)[rows[i].state] {
      assert rows[i] == StateCountOf(top[i]);
    }
    StateCountsOmitted(keys);
  }

  lemma StateCountsOmitted(keys: seq<string>)
    ensures forall k :: k in keys && (forall i :: 0 <= i < |StateCounts(keys)| ==> StateCounts(keys)[i].state != k) ==>
              |StateCounts(keys)| == 10
              && forall i :: 0 <= i < |StateCounts(keys)| ==> StateCounts(keys)[i].count >= multiset(keys)[k]
  {
    var top := Top(Count(keys), 10);
    var rows := StateCounts(keys);
    StateCountsAreTop(keys);
    forall k | k in keys && (forall i :: 0 <= i < |rows| ==> rows[i].state != k)
      ensures |rows| == 10 && forall i :: 0 <= i < |rows| ==> rows[i].count >= multiset(keys)[k]
    {
      forall i | 0 <= i < |top| ensures Keys(top)[i] != k {
        assert rows[i] == StateCountOf(top[i]);
      }
      assert k !in Keys(top);
      OmittedKeyDominated(keys, 10, k);
      forall i | 0 <= i < |rows| ensures rows[i].count >= multiset(keys)[k] {
        assert rows[i] == StateCountOf(top[i]);
      }
    }
  }

  /** `state_province` wins over `state`, which wins over the "Unknown" default. */
  lemma StateKeyPrefersProvince(b: Brewery)
    ensures Truthy(b.state_province) ==> StateKey(b) == StateKey(Brewery(b.state_province, Undefined))
    ensures !Truthy(b.state_province) ==> StateKey(b) == StateKey(Brewery(b.state, Undefined))
    ensures !Truthy(b.state_province) && !Truthy(b.state) ==> StateKey(b) == "Unknown"
  {
  }

  // ---------------------------------------------------------------------
  // Open Library: works per subject
  // ---------------------------------------------------------------------

  /** A work's subjects: its `subject` array, else its `subjects` array, else none. */
  function WorkSubjects(w: Json): seq<Json> {
    if Get(w, "subject").Arr? then Get(w, "subject").items
    else if Get(w, "subjects").Arr? then Get(w, "subjects").items
    else []
  }

  /** Every subject of every work, work after work. */
  function AllSubjects(works: seq<Json>): seq<Json> {
    Flatten(Map(works, WorkSubjects))
  }

  /**
   * The donut rows of an Open Library body: from a non-empty `subjects`
   * list, each subject's own count; else from a non-empty `works` list, the
   * number of times each (trimmed, non-empty) subject occurs among the
   * works; else nothing. Either way only usable rows are kept, largest
   * first, at most twelve.
   */
  function SubjectWorksRows(raw: Json): seq<NameValue> {
    if !Truthy(raw) then []
    else if NonEmptyArray(Get(raw, "subjects")) then
      Ranked(Map(Get(raw, "subjects").items, SubjectRow), Usable, 12)
    else if NonEmptyArray(Get(raw, "works")) then
      Ranked(Map(Count(CountedKeys(AllSubjects(Get(raw, "works").items), SubjectKey)), CountRow), Usable, 12)
    else []
  }

  method TransformOpenLibraryForSubjectWorksDonut(raw: Json) returns (rows: seq<NameValue>)
    ensures rows == SubjectWorksRows(raw)
  {
    if !Truthy(raw) {
      return [];
    }
    var subjects := Get(raw, "subjects");
    if subjects.Arr? && |subjects.items| > 0 {
      return Ranked(Map(subjects.items, SubjectRow), Usable, 12);
    }
    var works := Get(raw, "works");
    if works.Arr? && |works.items| > 0 {
      var counts := CountNested(works.items, WorkSubjects, SubjectKey);
      return Ranked(Map(counts, CountRow), Usable, 12);
    }
    return [];
  }

  /**
   * Whatever branch is taken, the donut has at most twelve rows, each with
   * a non-empty name and a finite positive value, largest values first.
   */
  lemma SubjectWorksRowsAreUsable(raw: Json)
    ensures |SubjectWorksRows(raw)| <= 12
    ensures forall d :: d in SubjectWorksRows(raw) ==> d.name != "" && IsPositiveFinite(d.value)
    ensures forall i, j :: 0 <= i < j < |SubjectWorksRows(raw)| ==>
              ValueKey(SubjectWorksRows(raw)[i]) >= ValueKey(SubjectWorksRows(raw)[j])
  {
    if Truthy(raw) {
      if NonEmptyArray(Get(raw, "subjects")) {
        RankedRows(Map(Get(raw, "subjects").items, SubjectRow), Usable, 12);
      } else if NonEmptyArray(Get(raw, "works")) {
        RankedRows(Map(Count(CountedKeys(AllSubjects(Get(raw, "works").items), SubjectKey)), CountRow), Usable, 12);
      }
    }
  }

  /** The subject keys the works branch counts: every non-blank trimmed subject of every work. */
  function WorksKeys(raw: Json): seq<string> {
    CountedKeys(AllSubjects(ArrayItems(Get(raw, "works"))), SubjectKey)
  }

  /**
   * In the works branch each row is a distinct subject valued at the number
   * of times it occurs (trimmed, among all works' subjects), at most
   * twelve, largest first; a subject left out occurs no more often than
   * any shown, and only when twelve are shown.
   */
  lemma WorksBranchCounts(raw: Json)
    requires Truthy(raw) && !NonEmptyArray(Get(raw, "subjects")) && NonEmptyArray(Get(raw, "works"))
    ensures SubjectWorksRows(raw) == Map(Top(Count(WorksKeys(raw)), 12), CountRow)
    ensures forall i :: 0 <= i < |SubjectWorksRows(raw)| ==>
              SubjectWorksRows(raw)[i].name in WorksKeys(raw)
              && SubjectWorksRows(raw)[i].value == Finite(multiset(WorksKeys(raw))[SubjectWorksRows(raw)[i].name] as real)
    ensures forall i, j :: 0 <= i < j < |SubjectWorksRows(raw)| ==>
              SubjectWorksRows(raw)[i].name != SubjectWorksRows(raw)[j].name
    ensures forall k :: k in WorksKeys(raw) && (forall i :: 0 <= i < |SubjectWorksRows(raw)| ==> SubjectWorksRows(raw)[i].name != k) ==>
              |SubjectWorksRows(raw)| == 12
              && forall i :: 0 <= i < |SubjectWorksRows(raw)| ==> ValueKey(SubjectWorksRows(raw)[i]) >= multiset(WorksKeys(raw))[k] as real
  {
    WorksBranchIsTop(raw);
    CountRowsTop(WorksKeys(raw), 12);
  }

  /** The works branch shows the twelve largest counts of the subject keys. */
  lemma WorksBranchIsTop(raw: Json)
    requires Truthy(raw) && !NonEmptyArray(Get(raw, "subjects")) && NonEmptyArray(Get(raw, "works"))
    ensures SubjectWorksRows(raw) == Map(Top(Count(WorksKeys(raw)), 12), CountRow)
  {
    var keys := WorksKeys(raw);
    forall i | 0 <= i < |keys| ensures keys[i] != "" {
      assert keys[i] in keys;
    }
    RankedCounts(keys, Usable, 12);
  }

  /** A non-empty `subjects` list decides the result: `works` is not looked at. */
  lemma SubjectsTakePrecedence(fields: map<string, Json>, works: Json)
    requires "subjects" in fields && NonEmptyArray(fields["subjects"])
    ensures SubjectWorksRows(Obj(fields["works" := works])) == SubjectWorksRows(Obj(fields))
  {
    assert Get(Obj(fields["works" := works]), "subjects") == fields["subjects"];
  }

  /** Without a usable `subjects` or `works` list there are no rows. */
  lemma NoListNoRows(raw: Json)
    requires !NonEmptyArray(Get(raw, "subjects")) && !NonEmptyArray(Get(raw, "works"))
    ensures SubjectWorksRows(raw) == []
  {
  }

  /** Per work, a `subject` array wins over a `subjects` array. */
  lemma SubjectPreferred(fields: map<string, Json>, subjects: Json)
    requires "subject" in fields && fields["subject"].Arr?
    ensures WorkSubjects(Obj(fields["subjects" := subjects])) == fields["subject"].items
  {
    assert Get(Obj(fields["subjects" := subjects]), "subject") == fields["subject"];
  }

  // ---------------------------------------------------------------------
  // PokeAPI: base experience
  // ---------------------------------------------------------------------

  /**
   * The body: the plain `results` list and the `enriched` list of detail
   * records, each `None` when absent or null.
   */
  datatype PokePayload = PokePayload(results: Option<seq<Json>>, enriched: Option<seq<Json>>)

  /** One point of the scatter plot. */
  datatype PokemonPoint = PokemonPoint(id: Json, name: Json, base_experience: Json)

  function PokemonPointOf(p: Json): PokemonPoint {
    PokemonPoint(Get(p, "id"), Get(p, "name"), Coalesce(Get(p, "base_experience"), Zero))
  }

  /** The list the points come from: `enriched` when it has entries, else `results`. */
  function PokemonSource(raw: Option<PokePayload>): seq<Json> {
    var results := if raw.Some? then raw.value.results.GetOr([]) else [];
    var enriched := if raw.Some? then raw.value.enriched.GetOr([]) else [];
    if |enriched| > 0 then enriched else results
  }

  /**
   * One point per truthy entry of the source list, in order, with
   * `base_experience` never missing (0 in its place).
   */
  function TransformPokeApiForBaseExperienceScatter(raw: Option<PokePayload>): (rows: seq<PokemonPoint>)
    ensures forall i :: 0 <= i < |rows| ==> !Nullish(rows[i].base_experience)
  {
    Map(Filter(PokemonSource(raw), Truthy), PokemonPointOf)
  }

  /**
   * The points are exactly those of the truthy entries of the source list,
   * one per entry, each carrying the entry's `id`, `name` and (defaulted)
   * `base_experience`.
   */
  lemma PokemonPointsOfTruthyEntries(raw: Option<PokePayload>)
    ensures |TransformPokeApiForBaseExperienceScatter(raw)| == multiset(Map(PokemonSource(raw), Truthy))[true]
    ensures forall q :: q in TransformPokeApiForBaseExperienceScatter(raw) <==>
              exists p :: p in PokemonSource(raw) && Truthy(p) && q == PokemonPointOf(p)
    ensures forall p :: p in PokemonSource(raw) && Truthy(p) && !Nullish(Get(p, "base_experience")) ==>
              PokemonPoint(Get(p, "id"), Get(p, "name"), Get(p, "base_experience"))
                in TransformPokeApiForBaseExperienceScatter(raw)
  {
    var src := PokemonSource(raw);
    var kept := Filter(src, Truthy);
    var rows := TransformPokeApiForBaseExperienceScatter(raw);
    FilterCount(src, Truthy);
    FilterContains(src, Truthy);
    forall q | q in rows ensures exists p :: p in src && Truthy(p) && q == PokemonPointOf(p) {
      var i :| 0 <= i < |rows| && rows[i] == q;
      assert kept[i] in kept;
    }
    forall p | p in src && Truthy(p) ensures PokemonPointOf(p) in rows {
      var i :| 0 <= i < |kept| && kept[i] == p;
      assert rows[i] == PokemonPointOf(p);
    }
  }

  /**
   * A non-empty `enriched` list decides the result on its own; with
   * `enriched` empty or missing, the result is that of `results` alone.
   */
  lemma EnrichedTakesPrecedence(results: Option<seq<Json>>, results': Option<seq<Json>>, enriched: Option<seq<Json>>)
    ensures enriched.Some? && |enriched.value| > 0 ==>
              TransformPokeApiForBaseExperienceScatter(Some(PokePayload(results, enriched)))
              == TransformPokeApiForBaseExperienceScatter(Some(PokePayload(results', enriched)))
    ensures (enriched.None? || enriched.value == []) ==>
              TransformPokeApiForBaseExperienceScatter(Some(PokePayload(results, enriched)))
              == TransformPokeApiForBaseExperienceScatter(Some(PokePayload(results, None)))
    ensures enriched.Some? && |enriched.value| > 0 ==>
              TransformPokeApiForBaseExperienceScatter(Some(PokePayload(results, enriched)))
              == TransformPokeApiForBaseExperienceScatter(Some(PokePayload(enriched, None)))
    ensures TransformPokeApiForBaseExperienceScatter(Some(PokePayload(None, None))) == []
    ensures TransformPokeApiForBaseExperienceScatter(None) == []
  {
  }

  /**
   * The points follow the source list: one more entry at its end adds its
   * point at the end of the scatter when the entry is truthy, and nothing
   * otherwise. With `EnrichedTakesPrecedence` this determines the points
   * entry by entry, in source order.
   */
  lemma PokemonPointsInOrder(src: seq<Json>, p: Json)
    ensures TransformPokeApiForBaseExperienceScatter(Some(PokePayload(Some(src + [p]), None)))
         == TransformPokeApiForBaseExperienceScatter(Some(PokePayload(Some(src), None)))
            + (if Truthy(p) then [PokemonPointOf(p)] else [])
  {
    FilterAppend(src, [p], Truthy);
    MapAppend(Filter(src, Truthy), Filter([p], Truthy), PokemonPointOf);
  }

  // ---------------------------------------------------------------------
  // SpaceX: launches per year
  // ---------------------------------------------------------------------

  /** A launch; each date is `None` when missing, null or empty. */
  datatype Launch = Launch(date_utc: Option<string>, date_local: Option<string>)

  /** `(date_utc || date_local || "").slice(0, 4)`. */
  function YearPrefix(l: Launch): string {
    var d :=
      if l.date_utc.Some? && l.date_utc.value != "" then l.date_utc.value
      else if l.date_local.Some? && l.date_local.value != "" then l.date_local.value
      else "";
    Slice(d, 0, 4)
  }

  /**
   * The date of midnight UTC on the first of January of the prefix's year,
   * kept as the year: the year when the prefix is four decimal digits,
   * `None` (an invalid date) otherwise.
   */
  function YearDate(year: string): Option<nat> {
    if |year| == 4 && AllDigits(year, 10) then Some(DigitsValue(year, 10)) else None
  }

  /** One point of the area chart: the first instant of the year and its number of launches. */
  datatype LaunchYear = LaunchYear(date: Option<nat>, count: nat)

  function LaunchYearOf(e: Entry): LaunchYear {
    LaunchYear(YearDate(e.key), e.count)
  }

  function LaunchCount(y: LaunchYear): int {
    y.count
  }

  /**
   * The comparator `a.date.getTime() - b.date.getTime()` is negative: both
   * dates are valid and `a` is earlier. An invalid date gives NaN, which
   * orders nothing.
   */
  function Earlier(): (LaunchYear, LaunchYear) -> bool {
    (a: LaunchYear, b: LaunchYear) => a.date.Some? && b.date.Some? && a.date.value < b.date.value
  }

  /** The years of the launches, blank ones skipped. */
  function LaunchKeys(launches: seq<Launch>): seq<string> {
    Filter(Map(launches, YearPrefix), NonEmpty)
  }

  /** The counter of the year prefixes, as points, sorted by date (stable). */
  function LaunchesPerYear(launches: seq<Launch>): seq<LaunchYear> {
    InsertionSort(Map(Count(LaunchKeys(launches)), LaunchYearOf), Earlier())
  }

  /** The list when the body is an array (`None` otherwise), counted per year. */
  method TransformSpaceXForLaunchesPerYearArea(raw: Option<seq<Launch>>) returns (rows: seq<LaunchYear>)
    ensures rows == LaunchesPerYear(raw.GetOr([]))
  {
    var launches := raw.GetOr([]);
    var counts: seq<Entry> := [];
    for i := 0 to |launches|
      invariant counts == Count(LaunchKeys(launches[..i]))
    {
      var y := YearPrefix(launches[i]);
      assert launches[..i + 1] == launches[..i] + [launches[i]];
      CountNonEmptyStep(launches[..i], launches[i], YearPrefix);
      if y != "" {
        counts := Bump(counts, y);
      }
    }
    assert launches[..|launches|] == launches;
    rows := InsertionSort(Map(counts, LaunchYearOf), Earlier());
  }

  /**
   * One point per distinct non-blank year prefix, and the counts add up
   * to the number of launches that have a prefix.
   */
  lemma LaunchesPerYearCounts(launches: seq<Launch>)
    ensures |LaunchesPerYear(launches)| == |set k | k in LaunchKeys(launches)|
    ensures multiset(LaunchesPerYear(launches)) == multiset(Map(Count(LaunchKeys(launches)), LaunchYearOf))
    ensures SumBy(LaunchesPerYear(launches), LaunchCount) == |LaunchKeys(launches)|
    ensures |LaunchKeys(launches)| == multiset(Map(Map(launches, YearPrefix), NonEmpty))[true]
  {
    var keys := LaunchKeys(launches);
    var t := Count(keys);
    var points := Map(t, LaunchYearOf);
    CountSize(keys);
    CountTotal(keys);
    SumOfCounts(t, LaunchYearOf, LaunchCount);
    InsertionSortSumBy(points, Earlier(), LaunchCount);
    FilterCount(Map(launches, YearPrefix), NonEmpty);
  }

  /** Every point is a year that occurs among the launches, with its number of launches. */
  lemma LaunchYearsCounted(launches: seq<Launch>)
    ensures forall y :: y in LaunchesPerYear(launches) ==>
              exists k :: k in LaunchKeys(launches) && y == LaunchYear(YearDate(k), multiset(LaunchKeys(launches))[k])
  {
    var keys := LaunchKeys(launches);
    var t := Count(keys);
    var points := Map(t, LaunchYearOf);
    CountIsHistogram(keys);
    forall y | y in LaunchesPerYear(launches)
      ensures exists k :: k in keys && y == LaunchYear(YearDate(k), multiset(keys)[k])
    {
      assert y in multiset(points);
      var i :| 0 <= i < |points| && points[i] == y;
      assert Keys(t)[i] == t[i].key;
      assert t[i].key in keys;
    }
  }

  /** When every year prefix is a valid year, the points run from the earliest year to the latest. */
  lemma LaunchesPerYearAscending(launches: seq<Launch>)
    requires forall k :: k in LaunchKeys(launches) ==> YearDate(k).Some?
    ensures forall y :: y in LaunchesPerYear(launches) ==> y.date.Some?
    ensures forall i, j :: 0 <= i < j < |LaunchesPerYear(launches)| ==>
              LaunchesPerYear(launches)[i].date.value <= LaunchesPerYear(launches)[j].date.value
  {
    var keys := LaunchKeys(launches);
    var t := Count(keys);
    var points := Map(t, LaunchYearOf);
    var sorted := LaunchesPerYear(launches);
    CountIsHistogram(keys);
    forall y | y in points ensures y.date.Some? {
      var i :| 0 <= i < |points| && points[i] == y;
      assert Keys(t)[i] == t[i].key;
    }
    var key := (y: LaunchYear) => if y.date.Some? then -(y.date.value as real) else 0.0;
    assert OrdersByKey(points, Earlier(), key);
    InsertionSortNonIncreasing(points, Earlier(), key);
    forall y | y in sorted ensures y.date.Some? {
      assert y in multiset(points);
    }
    forall i, j | 0 <= i < j < |sorted| ensures sorted[i].date.value <= sorted[j].date.value {
      assert sorted[i] in sorted && sorted[j] in sorted;
      assert key(sorted[i]) >= key(sorted[j]);
    }
  }
}
