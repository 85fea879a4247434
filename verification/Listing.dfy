/** The public skill listing: which rows it selects, how it orders and pages them
    (`_list_skills_impl` of app/api/skills.py). */
module Listing {
  import opened Basics
  import opened Frontmatter
  import opened SearchModes
  import opened Text
  import PublicFilters
  import Sorting
  import TrustScore
  import WorkerGates

  datatype Tag = Tag(name: string, slug: string)

  /** A catalogue row as the listing joins it; `popularity` is absent when there is no popularity row. */
  datatype Row = Row(
    id: nat,
    name: string,
    slug: string,
    description: Option<string>,
    summary: Option<string>,
    content: Option<string>,
    tags: seq<Tag>,
    category: Option<string>,
    url: Option<string>,
    official: bool,
    verified: bool,
    level: Option<TrustScore.Level>,
    trust: Option<real>,
    popularity: Option<real>,
    embedded: bool,
    created: int,
    updated: int)

  datatype Request = Request(
    q: Option<string>,
    category: Option<string>,
    tags: seq<string>,
    sort: string,
    page: nat,
    size: nat,
    mode: Mode,
    weights: Option<string>)

  /** Distance of each row's embedding from the embedding of the query. */
  type Distances = nat -> real

  /** Embedding of a query; none when it cannot be had. */
  type Embedder = string -> Option<Distances>

  // ---------------------------------------------------------------- matching

  /** SQL LIKE: `%` stands for any text, `_` for any character, a backslash takes the next one literally. */
  predicate Like(s: string, pattern: string)
    decreases |pattern|, |s|
  {
    if pattern == "" then s == ""
    else if pattern[0] == '%' then Like(s, pattern[1..]) || (s != "" && Like(s[1..], pattern))
    else if s == "" then false
    else if pattern[0] == '_' then Like(s[1..], pattern[1..])
    else if pattern[0] == '\\' then |pattern| >= 2 && s[0] == pattern[1] && Like(s[1..], pattern[2..])
    else s[0] == pattern[0] && Like(s[1..], pattern[1..])
  }

  predicate ILike(s: Option<string>, query: string) { s.Some? && Like(Lower(s.value), Lower("%" + query + "%")) }

  predicate TagMatches(tags: seq<Tag>, query: string) {
    exists t | t in tags :: ILike(Some(t.name), query) || ILike(Some(t.slug), query)
  }

  predicate KeywordMatch(row: Row, query: string) {
    ILike(Some(row.name), query) || ILike(Some(row.slug), query) || ILike(row.description, query)
    || ILike(row.summary, query) || ILike(row.content, query) || TagMatches(row.tags, query)
  }

  function When(matched: bool, points: real): real { if matched then points else 0.0 }

  function KeywordScore(row: Row, query: string): real {
    When(ILike(Some(row.name), query), 1.00) + When(ILike(Some(row.slug), query), 0.90)
    + When(ILike(row.summary, query), 0.75) + When(ILike(row.description, query), 0.65)
    + When(TagMatches(row.tags, query), 0.80) + When(ILike(row.content, query), 0.20)
  }

  // ---------------------------------------------------------------- the plan of a request

  datatype Plan = Plan(query: string, active: Active, weights: Weights, distances: Option<Distances>)

  datatype Planned = Go(plan: Plan) | Rejected(error: WeightError)

  function QueryText(q: Option<string>): string { if q.Some? then Strip(q.value) else "" }

  function PlanOf(r: Request, number: Numbers, embed: Embedder): Planned {
    match ParsedWeights(r.mode, r.weights, number)
    case Refused(error) => Rejected(error)
    case Accepted(w) =>
      var query := QueryText(r.q);
      var distances := if query != "" && r.mode != Keyword then embed(query) else None;
      var active := ResolveActiveMode(r.mode, query, distances.Some?);
      Go(Plan(query, active, if active.mode == Keyword then Weights(1.0, 0.0) else w, distances))
  }

  /** Closeness of a distance: one when it is zero, less the farther it is. */
  function Closeness(d: real): real { if d < 0.0 then 1.0 else 1.0 / (1.0 + d) }

  function VectorScore(p: Plan, row: Row): real {
    if p.distances.Some? && row.embedded then Closeness(p.distances.value(row.id)) else 0.0
  }

  function CombinedScore(p: Plan, row: Row): real {
    KeywordScore(row, p.query) * p.weights.keyword + VectorScore(p, row) * p.weights.vector
  }

  // ---------------------------------------------------------------- selection

  predicate Public(row: Row) {
    row.official && row.verified && row.url.Some? && PublicFilters.SqlPublic(row.url.value)
    && WorkerGates.TrustVisible(row.level, row.trust)
  }

  predicate InFilters(r: Request, row: Row) {
    && (r.category.Some? && r.category.value != "" ==> row.category == r.category)
    && (r.tags != [] ==> exists t | t in row.tags :: t.slug in r.tags)
  }

  predicate InMode(p: Plan, row: Row) {
    p.query == "" || match p.active.mode
                     case Keyword => KeywordMatch(row, p.query)
                     case Vector => row.embedded
                     case Hybrid => KeywordMatch(row, p.query) || row.embedded
  }

  predicate Selects(r: Request, p: Plan, row: Row) { Public(row) && InFilters(r, row) && InMode(p, row) }

  function Selected(rows: seq<Row>, r: Request, p: Plan): seq<Row> {
    if rows == [] then []
    else
      var pre, row := Selected(rows[..|rows| - 1], r, p), rows[|rows| - 1];
      if Selects(r, p, row) then pre + [row] else pre
  }

  // ---------------------------------------------------------------- order

  /** What a row is ordered by: values descending, one after the other, then the id ascending. */
  datatype Key = Key(values: seq<real>, id: nat)

  predicate Before(a: Key, b: Key)
    decreases |a.values|
  {
    if a.values == [] || b.values == [] then |a.values| < |b.values| || (|a.values| == |b.values| && a.id <= b.id)
    else
      a.values[0] > b.values[0]
      || (a.values[0] == b.values[0] && Before(Key(a.values[1..], a.id), Key(b.values[1..], b.id)))
  }

  function OrZero(x: Option<real>): real { if x.Some? then x.value else 0.0 }

  function TrustRank(level: Option<TrustScore.Level>): real {
    if level == Some(TrustScore.Ok) then 2.0 else if level == Some(TrustScore.Warned) then 1.0 else 0.0
  }

  function KeyOf(r: Request, p: Plan, row: Row): Key {
    var rank, trust, popularity := TrustRank(row.level), OrZero(row.trust), OrZero(row.popularity);
    Key(if p.query != "" then [CombinedScore(p, row), rank, trust, popularity, row.updated as real]
        else if r.sort == "newest" then [row.created as real, row.updated as real]
        else if r.sort == "oldest" then [-(row.created as real)]
        else [popularity, rank, trust, row.updated as real],
        row.id)
  }

  lemma {:induction false} BeforeTotal(a: Key, b: Key)
    ensures Before(a, b) || Before(b, a)
    ensures Before(a, b) && Before(b, a) ==> a.id == b.id
    decreases |a.values|
  {
    if a.values == [] || b.values == [] {
    } else {
      BeforeTotal(Key(a.values[1..], a.id), Key(b.values[1..], b.id));
    }
  }

  lemma {:induction false} BeforeTransitive(a: Key, b: Key, c: Key)
    requires Before(a, b) && Before(b, c)
    ensures Before(a, c)
    decreases |a.values|
  {
    if a.values == [] || b.values == [] || c.values == [] {
    } else if a.values[0] == b.values[0] == c.values[0] {
      BeforeTransitive(Key(a.values[1..], a.id), Key(b.values[1..], b.id), Key(c.values[1..], c.id));
    }
  }

  /** What search results are ordered by. */
  predicate SearchOrder(p: Plan, a: Row, b: Row) {
    var x, y := CombinedScore(p, a), CombinedScore(p, b);
    x > y || (x == y && TrustOrder(a, b, OrZero(a.popularity) > OrZero(b.popularity)
              || (OrZero(a.popularity) == OrZero(b.popularity) && Newer(a, b))))
  }

  /** Better trusted, or equally trusted and `otherwise`. */
  predicate TrustOrder(a: Row, b: Row, otherwise: bool) {
    TrustRank(a.level) > TrustRank(b.level)
    || (TrustRank(a.level) == TrustRank(b.level)
        && (OrZero(a.trust) > OrZero(b.trust) || (OrZero(a.trust) == OrZero(b.trust) && otherwise)))
  }

  predicate Newer(a: Row, b: Row) { a.updated > b.updated || (a.updated == b.updated && a.id <= b.id) }

  /** What browsing results are ordered by. */
  predicate BrowseOrder(sort: string, a: Row, b: Row) {
    if sort == "newest" then a.created > b.created || (a.created == b.created && Newer(a, b))
    else if sort == "oldest" then a.created < b.created || (a.created == b.created && a.id <= b.id)
    else OrZero(a.popularity) > OrZero(b.popularity)
         || (OrZero(a.popularity) == OrZero(b.popularity) && TrustOrder(a, b, Newer(a, b)))
  }

  lemma BeforeStep(x: real, xs: seq<real>, i: nat, y: real, ys: seq<real>, j: nat)
    ensures Before(Key([x] + xs, i), Key([y] + ys, j)) <==> x > y || (x == y && Before(Key(xs, i), Key(ys, j)))
  {
    assert ([x] + xs)[1..] == xs && ([y] + ys)[1..] == ys;
  }

  lemma BeforeOne(x: real, i: nat, y: real, j: nat)
    ensures Before(Key([x], i), Key([y], j)) <==> x > y || (x == y && i <= j)
  {
    assert [x] == [x] + [] && [y] == [y] + [];
    BeforeStep(x, [], i, y, [], j);
  }

  lemma BeforeTwo(x: (real, real), i: nat, y: (real, real), j: nat)
    ensures Before(Key([x.0, x.1], i), Key([y.0, y.1], j)) <==>
            x.0 > y.0 || (x.0 == y.0 && (x.1 > y.1 || (x.1 == y.1 && i <= j)))
  {
    assert [x.0, x.1] == [x.0] + [x.1] && [y.0, y.1] == [y.0] + [y.1];
    BeforeStep(x.0, [x.1], i, y.0, [y.1], j);
    BeforeOne(x.1, i, y.1, j);
  }

  lemma BeforeFour(x: (real, real, real, real), i: nat, y: (real, real, real, real), j: nat)
    ensures Before(Key([x.0, x.1, x.2, x.3], i), Key([y.0, y.1, y.2, y.3], j)) <==>
            x.0 > y.0 || (x.0 == y.0 && (x.1 > y.1 || (x.1 == y.1 &&
            (x.2 > y.2 || (x.2 == y.2 && (x.3 > y.3 || (x.3 == y.3 && i <= j)))))))
  {
    assert [x.0, x.1, x.2, x.3] == [x.0] + [x.1, x.2, x.3] && [x.1, x.2, x.3] == [x.1] + [x.2, x.3];
    assert [y.0, y.1, y.2, y.3] == [y.0] + [y.1, y.2, y.3] && [y.1, y.2, y.3] == [y.1] + [y.2, y.3];
    BeforeStep(x.0, [x.1, x.2, x.3], i, y.0, [y.1, y.2, y.3], j);
    BeforeStep(x.1, [x.2, x.3], i, y.1, [y.2, y.3], j);
    BeforeTwo((x.2, x.3), i, (y.2, y.3), j);
  }

  lemma SearchMeans(r: Request, p: Plan, a: Row, b: Row)
    requires p.query != ""
    ensures Before(KeyOf(r, p, a), KeyOf(r, p, b)) <==> SearchOrder(p, a, b)
  {
    var x := (TrustRank(a.level), OrZero(a.trust), OrZero(a.popularity), a.updated as real);
    var y := (TrustRank(b.level), OrZero(b.trust), OrZero(b.popularity), b.updated as real);
    var xs, ys := [x.0, x.1, x.2, x.3], [y.0, y.1, y.2, y.3];
    BeforeFour(x, a.id, y, b.id);
    BeforeStep(CombinedScore(p, a), xs, a.id, CombinedScore(p, b), ys, b.id);
    assert KeyOf(r, p, a) == Key([CombinedScore(p, a)] + xs, a.id)
           && KeyOf(r, p, b) == Key([CombinedScore(p, b)] + ys, b.id);
  }

  lemma BrowseMeans(r: Request, p: Plan, a: Row, b: Row)
    requires p.query == ""
    ensures Before(KeyOf(r, p, a), KeyOf(r, p, b)) <==> BrowseOrder(r.sort, a, b)
  {
    if r.sort == "newest" {
      BeforeTwo((a.created as real, a.updated as real), a.id, (b.created as real, b.updated as real), b.id);
    } else if r.sort == "oldest" {
      BeforeOne(-(a.created as real), a.id, -(b.created as real), b.id);
    } else {
      BeforeFour((OrZero(a.popularity), TrustRank(a.level), OrZero(a.trust), a.updated as real), a.id,
                 (OrZero(b.popularity), TrustRank(b.level), OrZero(b.trust), b.updated as real), b.id);
    }
  }

  /** The order of the keys is the documented one, criterion by criterion. */
  lemma OrderMeans(r: Request, p: Plan, a: Row, b: Row)
    ensures Before(KeyOf(r, p, a), KeyOf(r, p, b)) <==>
            if p.query != "" then SearchOrder(p, a, b) else BrowseOrder(r.sort, a, b)
  {
    if p.query != "" { SearchMeans(r, p, a, b); } else { BrowseMeans(r, p, a, b); }
  }

  predicate Arranged(s: seq<Row>, r: Request, p: Plan) {
    forall i, j | 0 <= i < j < |s| :: Before(KeyOf(r, p, s[i]), KeyOf(r, p, s[j]))
  }

  /** What the query returns before paging: the selected rows, each as often as it is there, in order. */
  predicate IsListing(order: seq<Row>, rows: seq<Row>, r: Request, p: Plan) {
    multiset(order) == multiset(Selected(rows, r, p)) && Arranged(order, r, p)
  }

  predicate DistinctIds(rows: seq<Row>) { forall i, j | 0 <= i < j < |rows| :: rows[i].id != rows[j].id }

  /** The rows of the listing come from the table, and an id names one of them. */
  predicate IdsName(s: seq<Row>) { forall a, b | a in s && b in s && a.id == b.id :: a == b }

  lemma {:induction false} SelectedCounts(rows: seq<Row>, r: Request, p: Plan, x: Row)
    ensures multiset(Selected(rows, r, p))[x] == if Selects(r, p, x) then multiset(rows)[x] else 0
  {
    if rows == [] {
    } else {
      var n := |rows| - 1;
      SelectedCounts(rows[..n], r, p, x);
      assert rows == rows[..n] + [rows[n]];
    }
  }

  lemma SelectedSame(rows: seq<Row>, again: seq<Row>, r: Request, p: Plan)
    requires multiset(rows) == multiset(again)
    ensures multiset(Selected(rows, r, p)) == multiset(Selected(again, r, p))
  {
    forall x ensures multiset(Selected(rows, r, p))[x] == multiset(Selected(again, r, p))[x] {
      SelectedCounts(rows, r, p, x);
      SelectedCounts(again, r, p, x);
    }
  }

  lemma FirstIsBefore(s: seq<Row>, x: Row, r: Request, p: Plan)
    requires Arranged(s, r, p) && x in s
    ensures s != [] && Before(KeyOf(r, p, s[0]), KeyOf(r, p, x))
  {
    BeforeTotal(KeyOf(r, p, s[0]), KeyOf(r, p, s[0]));
    var i :| 0 <= i < |s| && s[i] == x;
  }

  lemma SameHead(a: seq<Row>, b: seq<Row>, r: Request, p: Plan)
    requires Arranged(a, r, p) && Arranged(b, r, p) && IdsName(a) && a != [] && b != [] && b[0] in a && a[0] in b
    ensures a[0] == b[0]
  {
    FirstIsBefore(a, b[0], r, p);
    FirstIsBefore(b, a[0], r, p);
    BeforeTotal(KeyOf(r, p, a[0]), KeyOf(r, p, b[0]));
  }

  lemma TailKeeps(s: seq<Row>, r: Request, p: Plan)
    requires s != [] && Arranged(s, r, p)
    ensures Arranged(s[1..], r, p) && (IdsName(s) ==> IdsName(s[1..]))
  {
    forall i, j | 0 <= i < j < |s[1..]| ensures Before(KeyOf(r, p, s[1..][i]), KeyOf(r, p, s[1..][j])) {
      assert s[1..][i] == s[i + 1] && s[1..][j] == s[j + 1];
    }
    assert forall x | x in s[1..] :: x in s;
  }

  lemma SameParts(a: seq<Row>, b: seq<Row>)
    requires a != [] && b != [] && a[0] == b[0] && a[1..] == b[1..]
    ensures a == b
  {
    assert a == [a[0]] + a[1..] && b == [b[0]] + b[1..];
  }

  lemma SameMembers(a: seq<Row>, b: seq<Row>)
    requires multiset(a) == multiset(b)
    ensures |a| == |b| && (a != [] ==> b[0] in a && a[0] in b)
  {
    assert |multiset(a)| == |a| && |multiset(b)| == |b|;
    if a != [] { assert b[0] in multiset(a) && a[0] in multiset(b); }
  }

  lemma {:induction false} ArrangementIsUnique(a: seq<Row>, b: seq<Row>, r: Request, p: Plan)
    requires Arranged(a, r, p) && Arranged(b, r, p) && multiset(a) == multiset(b) && IdsName(a)
    ensures a == b
  {
    SameMembers(a, b);
    if a == [] {
    } else {
      SameHead(a, b, r, p);
      TailKeeps(a, r, p);
      TailKeeps(b, r, p);
      Sorting.TailMultiset(a);
      Sorting.TailMultiset(b);
      ArrangementIsUnique(a[1..], b[1..], r, p);
      SameParts(a, b);
    }
  }

  lemma ListingNames(order: seq<Row>, rows: seq<Row>, r: Request, p: Plan)
    requires IsListing(order, rows, r, p) && DistinctIds(rows)
    ensures IdsName(order)
    ensures forall x | x in order :: x in rows && Selects(r, p, x)
    ensures forall x | x in rows && Selects(r, p, x) :: x in order
  {
    forall x ensures x in order <==> x in rows && Selects(r, p, x) {
      SelectedCounts(rows, r, p, x);
      assert x in order <==> x in multiset(order);
      assert x in rows <==> x in multiset(rows);
    }
  }

  /** The listing depends on the set of rows alone: however the table is stored, and whichever
      arrangement the database finds, the rows come out the same. */
  lemma ListingIsDetermined(order: seq<Row>, rows: seq<Row>, order2: seq<Row>, rows2: seq<Row>, r: Request, p: Plan)
    requires DistinctIds(rows) && multiset(rows) == multiset(rows2)
    requires IsListing(order, rows, r, p) && IsListing(order2, rows2, r, p)
    ensures order == order2
  {
    SelectedSame(rows, rows2, r, p);
    ListingNames(order, rows, r, p);
    ArrangementIsUnique(order, order2, r, p);
  }

  /** And it lists each selected row exactly once. */
  lemma ListedOnce(order: seq<Row>, rows: seq<Row>, r: Request, p: Plan)
    requires DistinctIds(rows) && IsListing(order, rows, r, p)
    ensures DistinctIds(order)
    ensures forall x :: x in order <==> x in rows && Selects(r, p, x)
  {
    ListingNames(order, rows, r, p);
    forall i, j | 0 <= i < j < |order| ensures order[i].id != order[j].id {
      OccursOnce(rows, order[i]);
      SelectedCounts(rows, r, p, order[i]);
      if order[i] == order[j] { TwoOccurrences(order, i, j); }
    }
  }

  lemma {:induction false} OccursOnce(rows: seq<Row>, x: Row)
    requires DistinctIds(rows)
    ensures multiset(rows)[x] <= 1
  {
    if rows == [] {
    } else {
      var n := |rows| - 1;
      OccursOnce(rows[..n], x);
      assert rows == rows[..n] + [rows[n]];
      if rows[n] == x { assert x !in rows[..n]; }
    }
  }

  lemma TwoOccurrences(s: seq<Row>, i: nat, j: nat)
    requires i < j < |s| && s[i] == s[j]
    ensures multiset(s)[s[i]] >= 2
  {
    assert s == s[..i + 1] + s[i + 1..];
    assert s[i] in s[..i + 1] && s[j] in s[i + 1..];
  }

  // ---------------------------------------------------------------- pages

  function PageCount(total: nat, size: nat): nat
    requires size > 0
  {
    if total > 0 then (total + size - 1) / size else 0
  }

  /** Offset and limit. */
  function PageOf(order: seq<Row>, page: nat, size: nat): seq<Row>
    requires page >= 1
  {
    var lo := (page - 1) * size;
    if lo >= |order| then [] else if lo + size >= |order| then order[lo..] else order[lo..lo + size]
  }

  /** The pages 1 to k, one after the other, as answers to requests of their own. */
  function Concatenated(pages: seq<seq<Row>>): seq<Row> {
    if pages == [] then [] else Concatenated(pages[..|pages| - 1]) + pages[|pages| - 1]
  }

  /** One page more. */
  lemma PageExtends(order: seq<Row>, size: nat, n: nat)
    requires size > 0
    ensures UpToPage(order, n, size) + PageOf(order, n + 1, size) == UpToPage(order, n + 1, size)
  {
    assert (n + 1) * size == n * size + size;
  }

  /** What the first n pages hold. */
  function UpToPage(order: seq<Row>, n: nat, size: nat): seq<Row> {
    if n * size >= |order| then order else order[..n * size]
  }

  lemma {:induction false} PagesArePrefix(order: seq<Row>, size: nat, pages: seq<seq<Row>>)
    requires size > 0 && forall k | 0 <= k < |pages| :: pages[k] == PageOf(order, k + 1, size)
    ensures Concatenated(pages) == UpToPage(order, |pages|, size)
  {
    if pages == [] {
      assert 0 * size == 0;
    } else {
      var n := |pages| - 1;
      PagesArePrefix(order, size, pages[..n]);
      PageExtends(order, size, n);
    }
  }

  lemma LastPage(total: nat, size: nat, k: nat)
    requires size > 0 && total > 0
    ensures PageCount(total, size) * size >= total && (PageCount(total, size) - 1) * size < total
    ensures 1 <= k < PageCount(total, size) ==> k * size < total
    ensures k >= PageCount(total, size) ==> k * size >= total
  {
    var n := PageCount(total, size);
    assert (total + size - 1) == n * size + (total + size - 1) % size;
    assert n * size > total - 1;
    assert (n - 1) * size == n * size - size;
    if 1 <= k < n { Monotone(k, n - 1, size); }
    if k >= n { Monotone(n, k, size); }
  }

  lemma Monotone(a: nat, b: nat, size: nat)
    requires a <= b
    ensures a * size <= b * size
  {
    assert (b - a) * size >= 0;
    assert b * size == a * size + (b - a) * size;
  }

  /** How long each page of a listing is. */
  lemma PageLength(order: seq<Row>, page: nat, size: nat)
    requires size > 0 && order != [] && page >= 1
    ensures var n := PageCount(|order|, size);
            |PageOf(order, page, size)| <= size
            && (page < n ==> |PageOf(order, page, size)| == size)
            && (page == n ==> |PageOf(order, page, size)| > 0)
            && (page > n ==> PageOf(order, page, size) == [])
  {
    LastPage(|order|, size, page);
    if page > 1 { LastPage(|order|, size, page - 1); }
    assert page * size == (page - 1) * size + size;
  }

  /** The pages of a number of answers, the k-th page from the k-th answer. */
  function PagesFrom(orders: seq<seq<Row>>, size: nat): seq<seq<Row>> {
    seq(|orders|, k requires 0 <= k < |orders| => PageOf(orders[k], k + 1, size))
  }

  /** The pages up to the announced number, each answered from its own query over the same rows, put
      together are the listing: every selected row exactly once; all but the last page are full, the
      last is not empty, and what comes after is. */
  lemma PagesPartition(orders: seq<seq<Row>>, rows: seq<Row>, r: Request, p: Plan)
    requires DistinctIds(rows) && r.size > 0
    requires orders != [] && forall k | 0 <= k < |orders| :: IsListing(orders[k], rows, r, p)
    requires |orders| == PageCount(|orders[0]|, r.size)
    ensures Concatenated(PagesFrom(orders, r.size)) == orders[0]
    ensures forall k | 0 <= k < |orders| - 1 :: |PagesFrom(orders, r.size)[k]| == r.size
    ensures 0 < |PagesFrom(orders, r.size)[|orders| - 1]| <= r.size
    ensures forall beyond: nat | beyond > |orders| :: PageOf(orders[0], beyond, r.size) == []
  {
    var order := orders[0];
    SameAnswers(orders, rows, r, p);
    LastPage(|order|, r.size, |orders|);
    forall k | 0 <= k < |orders| ensures PagesFrom(orders, r.size)[k] == PageOf(order, k + 1, r.size) {
    }
    PagesArePrefix(order, r.size, PagesFrom(orders, r.size));
    forall k | 0 <= k < |orders|
      ensures |PagesFrom(orders, r.size)[k]| == r.size
              || (k == |orders| - 1 && 0 < |PagesFrom(orders, r.size)[k]| <= r.size)
    {
      PageLength(order, k + 1, r.size);
    }
    forall beyond: nat | beyond > |orders| ensures PageOf(order, beyond, r.size) == [] {
      PageLength(order, beyond, r.size);
    }
  }

  lemma SameAnswers(orders: seq<seq<Row>>, rows: seq<Row>, r: Request, p: Plan)
    requires DistinctIds(rows) && forall k | 0 <= k < |orders| :: IsListing(orders[k], rows, r, p)
    ensures forall k | 0 <= k < |orders| :: orders[k] == orders[0]
  {
    forall k | 0 <= k < |orders| ensures orders[k] == orders[0] {
      ListingIsDetermined(orders[k], rows, orders[0], rows, r, p);
    }
  }

  // ---------------------------------------------------------------- the fallback

  predicate Searching(r: Request) { QueryText(r.q) != "" }

  lemma KeywordPlan(r: Request, number: Numbers, embed: Embedder)
    ensures PlanOf(r.(mode := Keyword), number, embed) ==
            Go(Plan(QueryText(r.q), Active(Keyword, false), Weights(1.0, 0.0), None))
  {
  }

  lemma SameSelection(rows: seq<Row>, r: Request, r2: Request, p: Plan, p2: Plan)
    requires p2 == p.(active := p2.active) && p2.active.mode == p.active.mode && r2 == r.(mode := r2.mode)
    ensures Selected(rows, r, p) == Selected(rows, r2, p2)
    decreases rows
  {
    if rows == [] {
    } else {
      SameSelection(rows[..|rows| - 1], r, r2, p, p2);
    }
  }

  /** A vector or hybrid search without an embedding is refused exactly when it is a hybrid one with a
      text for weights that does not give both sides one, neither negative and not both zero; otherwise
      its listings are exactly those of keyword mode, row by row, whatever the weights were. */
  lemma FallbackIsKeywordMode(order: seq<Row>, rows: seq<Row>, r: Request, number: Numbers, embed: Embedder)
    requires Searching(r) && r.mode != Keyword && embed(QueryText(r.q)).None?
    ensures PlanOf(r, number, embed).Rejected? <==>
            r.mode == Hybrid && r.weights.Some? && Strip(r.weights.value) != ""
                && !GivesShares(Strip(r.weights.value), number)
    ensures PlanOf(r, number, embed).Go? ==>
            var p, keyword := PlanOf(r, number, embed).plan, PlanOf(r.(mode := Keyword), number, embed).plan;
            && p.active == Active(Keyword, true)
            && (IsListing(order, rows, r, p) <==> IsListing(order, rows, r.(mode := Keyword), keyword))
  {
    KeywordPlan(r, number, embed);
    RefusedIff(r.weights, number);
    if PlanOf(r, number, embed).Go? {
      var p, keyword := PlanOf(r, number, embed).plan, PlanOf(r.(mode := Keyword), number, embed).plan;
      SameSelection(rows, r, r.(mode := Keyword), p, keyword);
      forall x ensures KeyOf(r, p, x) == KeyOf(r.(mode := Keyword), keyword, x) {
      }
    }
  }

  /** Whatever the numbers read as, a hybrid search with one weight is refused, embedding or not, where
      keyword mode would have answered. */
  lemma OneWeightIsRefused(r: Request, number: Numbers, embed: Embedder)
    requires Searching(r) && r.mode == Hybrid && r.weights == Some("1")
    ensures PlanOf(r, number, embed) == Rejected(InvalidFormat) && PlanOf(r.(mode := Keyword), number, embed).Go?
  {
    OneValue();
    KeywordPlan(r, number, embed);
  }

  lemma OneValue()
    ensures Strip("1") == "1" && Split("1", ',') == ["1"] && NonBlank(["1"]) == ["1"]
  {
    StripTrims("1");
    FirstNone("1", ',');
    assert "1"[..1] == "1";
    assert ["1"][..0] == [];
  }

  /** Without a query the mode does not matter. */
  lemma BrowsingIgnoresMode(order: seq<Row>, rows: seq<Row>, r: Request, number: Numbers, embed: Embedder)
    requires !Searching(r) && PlanOf(r, number, embed).Go?
    ensures var p, keyword := PlanOf(r, number, embed).plan, PlanOf(r.(mode := Keyword), number, embed).plan;
            IsListing(order, rows, r, p) <==> IsListing(order, rows, r.(mode := Keyword), keyword)
  {
    KeywordPlan(r, number, embed);
    var p, keyword := PlanOf(r, number, embed).plan, PlanOf(r.(mode := Keyword), number, embed).plan;
    BrowsingSelection(rows, r, r.(mode := Keyword), p, keyword);
    forall x ensures KeyOf(r, p, x) == KeyOf(r.(mode := Keyword), keyword, x) {
    }
  }

  lemma {:induction false} BrowsingSelection(rows: seq<Row>, r: Request, r2: Request, p: Plan, p2: Plan)
    requires p.query == "" && p2.query == "" && r2 == r.(mode := r2.mode)
    ensures Selected(rows, r, p) == Selected(rows, r2, p2)
  {
    if rows == [] {
    } else {
      BrowsingSelection(rows[..|rows| - 1], r, r2, p, p2);
    }
  }

  // ---------------------------------------------------------------- scores and reasons

  /** A row matches by keyword exactly when its keyword score is positive. */
  lemma MatchIffScored(row: Row, query: string)
    ensures KeywordMatch(row, query) <==> KeywordScore(row, query) > 0.0
    ensures KeywordScore(row, query) >= 0.0
  {
  }

  datatype Place = InName | InSlug | InTags | InSummary | InDescription | InContent

  predicate FoundIn(row: Row, query: string, place: Place) {
    match place
    case InName => ILike(Some(row.name), query)
    case InSlug => ILike(Some(row.slug), query)
    case InTags => TagMatches(row.tags, query)
    case InSummary => ILike(row.summary, query)
    case InDescription => ILike(row.description, query)
    case InContent => ILike(row.content, query)
  }

  /** The places from the most to the least telling. */
  function Weight(place: Place): nat {
    match place
    case InName => 6
    case InSlug => 5
    case InTags => 4
    case InSummary => 3
    case InDescription => 2
    case InContent => 1
  }

  predicate FoundOnlyIn(row: Row, query: string, place: Place) {
    forall other: Place :: FoundIn(row, query, other) <==> other == place
  }

  /** A row found in one place, at least, scores higher than every row found only in a less telling one. */
  lemma TellingPlaces(a: Row, b: Row, query: string, place: Place, other: Place)
    requires FoundIn(a, query, place) && FoundOnlyIn(b, query, other) && Weight(place) > Weight(other)
    ensures KeywordScore(a, query) > KeywordScore(b, query)
  {
    OnePlaceScore(b, query, other);
    PlaceScore(a, query, place);
  }

  function Points(place: Place): real {
    match place
    case InName => 1.00
    case InSlug => 0.90
    case InTags => 0.80
    case InSummary => 0.75
    case InDescription => 0.65
    case InContent => 0.20
  }

  lemma PlaceScore(row: Row, query: string, place: Place)
    requires FoundIn(row, query, place)
    ensures KeywordScore(row, query) >= Points(place)
  {
  }

  lemma OnePlaceScore(row: Row, query: string, place: Place)
    requires FoundOnlyIn(row, query, place)
    ensures KeywordScore(row, query) == Points(place)
  {
    assert FoundIn(row, query, InName) <==> InName == place;
    assert FoundIn(row, query, InSlug) <==> InSlug == place;
    assert FoundIn(row, query, InTags) <==> InTags == place;
    assert FoundIn(row, query, InSummary) <==> InSummary == place;
    assert FoundIn(row, query, InDescription) <==> InDescription == place;
    assert FoundIn(row, query, InContent) <==> InContent == place;
  }

  function ReasonOf(r: Request, p: Plan, row: Row): Reason {
    if p.query == "" then SortedBy(r.sort)
    else BuildMatchReason(p.active.mode, KeywordScore(row, p.query), VectorScore(p, row), p.active.fallback)
  }

  /** What the reasons in an answer tell: keyword mode lists keyword matches only, so the reasons for a
      row without one never appear; and in hybrid mode the reason says which of the two found the row. */
  lemma ReasonsMean(r: Request, number: Numbers, embed: Embedder, row: Row)
    requires Searching(r) && PlanOf(r, number, embed).Go? && Selects(r, PlanOf(r, number, embed).plan, row)
    requires r.mode != Keyword && embed(QueryText(r.q)).Some? ==> embed(QueryText(r.q)).value(row.id) >= 0.0
    ensures var p := PlanOf(r, number, embed).plan; var reason := ReasonOf(r, p, row);
            && (p.active.mode == Keyword ==> KeywordScore(row, p.query) > 0.0)
            && (reason == KeywordMatchFallback <==> p.active.fallback)
            && (reason == KeywordRelevance <==> r.mode == Keyword)
            && (reason == SemanticMatch <==> p.active.mode == Vector)
            && (reason == HybridBoth <==> p.active.mode == Hybrid && KeywordMatch(row, p.query) && row.embedded)
            && (reason == HybridKeyword <==> p.active.mode == Hybrid && KeywordMatch(row, p.query) && !row.embedded)
            && (reason == HybridVector <==> p.active.mode == Hybrid && !KeywordMatch(row, p.query) && row.embedded)
  {
    var p := PlanOf(r, number, embed).plan;
    MatchIffScored(row, p.query);
    if p.distances.Some? && row.embedded { ClosenessPositive(p.distances.value(row.id)); }
  }

  lemma ClosenessPositive(d: real)
    ensures 0.0 < Closeness(d) <= 1.0
  {
    if d >= 0.0 {
      var c := 1.0 / (1.0 + d);
      assert c * (1.0 + d) == 1.0;
    }
  }

  /** Hybrid mode loses nothing and adds nothing: the rows of its listing are those of the keyword
      listing and of the vector listing together. */
  lemma HybridIsUnion(
      hybrid: seq<Row>, keyword: seq<Row>, vector: seq<Row>, rows: seq<Row>, r: Request, number: Numbers,
      embed: Embedder)
    requires Searching(r) && embed(QueryText(r.q)).Some? && DistinctIds(rows)
             && PlanOf(r.(mode := Hybrid), number, embed).Go?
    requires IsListing(hybrid, rows, r.(mode := Hybrid), PlanOf(r.(mode := Hybrid), number, embed).plan)
    requires IsListing(keyword, rows, r.(mode := Keyword), PlanOf(r.(mode := Keyword), number, embed).plan)
    requires IsListing(vector, rows, r.(mode := Vector), PlanOf(r.(mode := Vector), number, embed).plan)
    ensures Elements(hybrid) == Elements(keyword) + Elements(vector)
    ensures |hybrid| + |Elements(keyword) * Elements(vector)| == |keyword| + |vector|
  {
    var h, k, v := PlanOf(r.(mode := Hybrid), number, embed).plan, PlanOf(r.(mode := Keyword), number, embed).plan,
      PlanOf(r.(mode := Vector), number, embed).plan;
    KeywordPlan(r, number, embed);
    forall row ensures row in hybrid <==> row in keyword || row in vector {
      ListedOnce(hybrid, rows, r.(mode := Hybrid), h);
      ListedOnce(keyword, rows, r.(mode := Keyword), k);
      ListedOnce(vector, rows, r.(mode := Vector), v);
      ModesOfRow(r, h, k, v, row);
    }
    AsManyRows(hybrid, rows, r.(mode := Hybrid), h);
    AsManyRows(keyword, rows, r.(mode := Keyword), k);
    AsManyRows(vector, rows, r.(mode := Vector), v);
    assert Elements(hybrid) == Elements(keyword) + Elements(vector);
  }

  lemma ModesOfRow(r: Request, h: Plan, k: Plan, v: Plan, row: Row)
    requires h.query == k.query == v.query && h.active.mode == Hybrid && k.active.mode == Keyword
             && v.active.mode == Vector
    ensures Selects(r.(mode := Hybrid), h, row) <==>
            Selects(r.(mode := Keyword), k, row) || Selects(r.(mode := Vector), v, row)
  {
  }

  lemma AsManyRows(order: seq<Row>, rows: seq<Row>, r: Request, p: Plan)
    requires DistinctIds(rows) && IsListing(order, rows, r, p)
    ensures |Elements(order)| == |order|
  {
    ListedOnce(order, rows, r, p);
    DistinctCount(order);
  }

  // ---------------------------------------------------------------- what matching means

  predicate Plain(query: string) { forall c | c in query :: c != '%' && c != '_' && c != '\\' }

  lemma {:induction false} LikeAnything(s: string)
    ensures Like(s, "%")
  {
    if s == "" {
      assert Like(s, "%"[1..]);
    } else {
      LikeAnything(s[1..]);
    }
  }

  lemma PrefixByHead(a: string, b: string)
    requires a != "" && b != ""
    ensures a <= b <==> a[0] == b[0] && a[1..] <= b[1..]
  {
    if a[0] == b[0] && a[1..] <= b[1..] {
      forall i | 0 <= i < |a| ensures a[i] == b[i] {
        if i > 0 { assert a[i] == a[1..][i - 1] && b[i] == b[1..][i - 1]; }
      }
    }
    if a <= b {
      assert forall i | 0 <= i < |a| - 1 :: a[1..][i] == a[i + 1] == b[i + 1] == b[1..][i];
    }
  }

  lemma {:induction false} LikePrefix(s: string, query: string)
    requires Plain(query)
    ensures Like(s, query + "%") <==> query <= s
    decreases |query|
  {
    if query == "" {
      assert query + "%" == "%";
      LikeAnything(s);
    } else if s == "" {
      assert query[0] in query && (query + "%")[0] == query[0];
    } else {
      assert query[0] in query && query == [query[0]] + query[1..];
      assert (query + "%")[1..] == query[1..] + "%";
      assert forall c | c in query[1..] :: c in query;
      LikePrefix(s[1..], query[1..]);
      assert s == [s[0]] + s[1..];
      assert Like(s, query + "%") <==> s[0] == query[0] && query[1..] <= s[1..];
      PrefixByHead(query, s);
    }
  }

  lemma {:induction false} LikeSomewhere(s: string, query: string)
    requires Plain(query)
    ensures Like(s, "%" + query + "%") <==> Contains(s, query)
  {
    var pattern := "%" + query + "%";
    assert pattern[0] == '%' && pattern[1..] == query + "%";
    LikePrefix(s, query);
    if s == "" {
    } else {
      LikeSomewhere(s[1..], query);
    }
  }

  /** A query without wildcard characters matches the texts it occurs in, ignoring case. */
  lemma PlainMatchIsContainment(text: string, query: string)
    requires Plain(query)
    ensures ILike(Some(text), query) <==> Contains(Lower(text), Lower(query))
  {
    assert Lower("%" + query + "%") == "%" + Lower(query) + "%";
    forall c | c in Lower(query) ensures c != '%' && c != '_' && c != '\\' {
      var i :| 0 <= i < |query| && Lower(query)[i] == c;
      assert query[i] in query;
    }
    LikeSomewhere(Lower(text), Lower(query));
  }

  /** The shortest text a query stands for. */
  function Sample(query: string): string {
    if query == "" then ""
    else if query[0] == '%' then Sample(query[1..])
    else if query[0] == '_' then "a" + Sample(query[1..])
    else if query[0] == '\\' then if |query| >= 2 then [query[1]] + Sample(query[2..]) else "%"
    else [query[0]] + Sample(query[1..])
  }

  lemma {:induction false} SampleMatches(query: string)
    ensures Like(Sample(query), query + "%")
    decreases |query|
  {
    if query == "" {
      assert query + "%" == "%";
      LikeAnything("");
    } else {
      var pattern, s := query + "%", Sample(query);
      assert pattern[0] == query[0] && pattern[1..] == query[1..] + "%";
      if query[0] == '\\' && |query| >= 2 {
        SampleMatches(query[2..]);
        assert pattern[1] == query[1] && pattern[2..] == query[2..] + "%";
        assert s[1..] == Sample(query[2..]);
      } else if query[0] == '\\' {
        assert pattern[1] == '%' && pattern[2..] == "" && s[1..] == "";
      } else {
        SampleMatches(query[1..]);
        if query[0] != '%' { assert s[1..] == Sample(query[1..]); }
      }
    }
  }

  lemma {:induction false} SampleIsShort(query: string)
    ensures |Sample(query)| <= |query|
    ensures !Plain(query) ==> Sample(query) != query
    decreases |query|
  {
    if query == "" {
    } else if query[0] == '\\' {
      if |query| >= 2 { SampleIsShort(query[2..]); }
    } else {
      SampleIsShort(query[1..]);
      assert query == [query[0]] + query[1..];
      if query[0] != '%' { assert Sample(query)[1..] == Sample(query[1..]); }
    }
  }

  lemma {:induction false} SampleChars(query: string, c: char)
    requires c in Sample(query)
    ensures c in query || c == 'a' || c == '%'
    decreases |query|
  {
    if query[0] == '\\' {
      if |query| >= 2 && c in Sample(query[2..]) { SampleChars(query[2..], c); }
    } else if c in Sample(query[1..]) {
      SampleChars(query[1..], c);
    }
  }

  lemma SampleIsLower(query: string)
    ensures Lower(Sample(Lower(query))) == Sample(Lower(query))
  {
    var s := Sample(Lower(query));
    forall i | 0 <= i < |s| ensures LowerChar(s[i]) == s[i] {
      SampleChars(Lower(query), s[i]);
      if s[i] in Lower(query) {
        var j :| 0 <= j < |query| && Lower(query)[j] == s[i];
        assert s[i] == LowerChar(query[j]);
      }
    }
  }

  lemma LowerIsPlain(query: string)
    ensures Plain(Lower(query)) <==> Plain(query)
  {
    assert forall i | 0 <= i < |query| :: Lower(query)[i] == LowerChar(query[i]);
    if Plain(Lower(query)) {
      forall i | 0 <= i < |query| ensures query[i] != '%' && query[i] != '_' && query[i] != '\\' {
        assert Lower(query)[i] in Lower(query);
      }
    }
    if Plain(query) {
      forall i | 0 <= i < |query| ensures Lower(query)[i] != '%' && Lower(query)[i] != '_' && Lower(query)[i] != '\\' {
        assert query[i] in query;
      }
    }
  }

  /** A query with a wildcard character matches its shortest text and does not occur in it. */
  lemma SampleTellsApart(query: string)
    requires !Plain(query)
    ensures var text := Sample(Lower(query));
            ILike(Some(text), query) && !Contains(Lower(text), Lower(query))
  {
    var q := Lower(query);
    var text := Sample(q);
    LowerIsPlain(query);
    SampleIsLower(query);
    SampleMatches(q);
    SampleIsShort(q);
    var pattern := "%" + q + "%";
    assert Lower("%" + query + "%") == pattern;
    assert pattern[0] == '%' && pattern[1..] == q + "%";
    if Contains(text, q) {
      ContainsIsShorter(text, q);
      ContainsWhole(text, q);
    }
  }

  /** The query matches exactly the texts it occurs in, ignoring case. */
  ghost predicate MatchesLiterally(query: string) {
    forall text :: ILike(Some(text), query) <==> Contains(Lower(text), Lower(query))
  }

  /** A query is taken literally exactly when it has no percent sign, no underscore and no backslash. */
  lemma LiteralIff(query: string)
    ensures MatchesLiterally(query) <==> Plain(query)
  {
    if Plain(query) {
      forall text ensures ILike(Some(text), query) <==> Contains(Lower(text), Lower(query)) {
        PlainMatchIsContainment(text, query);
      }
    } else {
      SampleTellsApart(query);
    }
  }

  /** An underscore, for one, matches every text that is not empty. */
  lemma {:induction false} WildcardMatchesMore(text: string)
    ensures ILike(Some(text), "_") <==> text != ""
  {
    assert Lower("%" + "_" + "%") == "%_%";
    AnyCharacter(Lower(text));
  }

  lemma {:induction false} AnyCharacter(s: string)
    ensures Like(s, "%_%") <==> s != ""
  {
    assert "%_%"[1..] == "_%" && "_%"[1..] == "%";
    if s == "" {
    } else {
      LikeAnything(s[1..]);
    }
  }

  // ---------------------------------------------------------------- the listing as it runs

  function OrderOf(r: Request, p: Plan): (Row, Row) -> bool {
    (a: Row, b: Row) => Before(KeyOf(r, p, a), KeyOf(r, p, b))
  }

  lemma OrderIsPreorder(r: Request, p: Plan)
    ensures Sorting.Preorder(OrderOf(r, p))
  {
    var le := OrderOf(r, p);
    forall a, b ensures le(a, b) || le(b, a) { BeforeTotal(KeyOf(r, p, a), KeyOf(r, p, b)); }
    forall a, b, c | le(a, b) && le(b, c) ensures le(a, c) {
      BeforeTransitive(KeyOf(r, p, a), KeyOf(r, p, b), KeyOf(r, p, c));
    }
  }

  lemma RowInserted(x: Row, s: seq<Row>, r: Request, p: Plan)
    requires Arranged(s, r, p)
    ensures var t := Sorting.Insert(x, s, OrderOf(r, p)); Arranged(t, r, p) && multiset(t) == multiset(s) + multiset{x}
  {
    OrderIsPreorder(r, p);
    Sorting.InsertKeeps(x, s, OrderOf(r, p));
  }

  /** The database's answer to the statement: there always is one. */
  method Execute(rows: seq<Row>, r: Request, p: Plan) returns (order: seq<Row>)
    ensures IsListing(order, rows, r, p)
  {
    order := [];
    for i := 0 to |rows|
      invariant IsListing(order, rows[..i], r, p)
    {
      assert rows[..i + 1][..i] == rows[..i];
      if Selects(r, p, rows[i]) {
        RowInserted(rows[i], order, r, p);
        order := Sorting.Insert(rows[i], order, OrderOf(r, p));
      }
    }
    assert rows[..|rows|] == rows;
  }

  datatype Item = Item(row: Row, reason: Reason)

  datatype Answer =
    | Listed(items: seq<Item>, total: nat, page: nat, size: nat, pages: nat)
    | Unprocessable(error: WeightError)

  function Items(rows: seq<Row>, r: Request, p: Plan): seq<Item> {
    seq(|rows|, i requires 0 <= i < |rows| => Item(rows[i], ReasonOf(r, p, rows[i])))
  }

  /** The request: refused weights are reported before anything else is done; otherwise one page of the
      listing, each row with its reason, and the totals of the whole. */
  method ListSkills(rows: seq<Row>, r: Request, number: Numbers, embed: Embedder)
    returns (answer: Answer, order: seq<Row>)
    requires r.page >= 1 && r.size >= 1
    ensures PlanOf(r, number, embed).Rejected? ==> answer == Unprocessable(PlanOf(r, number, embed).error)
    ensures PlanOf(r, number, embed).Go? ==>
            var p := PlanOf(r, number, embed).plan;
            && IsListing(order, rows, r, p)
            && answer ==
               Listed(Items(PageOf(order, r.page, r.size), r, p), |order|, r.page, r.size, PageCount(|order|, r.size))
  {
    var queryText := QueryText(r.q);
    var parsed := ParseSearchWeights(r.mode, r.weights, number);
    if parsed.Refused? {
      return Unprocessable(parsed.error), [];
    }
    var weights, distances := parsed.w, None;
    if queryText != "" && r.mode != Keyword {
      distances := embed(queryText);
    }
    var active := ResolveActiveMode(r.mode, queryText, distances.Some?);
    if active.mode == Keyword {
      weights := Weights(1.0, 0.0);
    }
    var p := Plan(queryText, active, weights, distances);
    order := Execute(rows, r, p);
    var page := PageOf(order, r.page, r.size);
    var items: seq<Item> := [];
    for i := 0 to |page|
      invariant items == Items(page[..i], r, p)
    {
      var reason := if queryText != "" then
          BuildMatchReason(active.mode, KeywordScore(page[i], queryText), VectorScore(p, page[i]), active.fallback)
        else SortedBy(r.sort);
      items := items + [Item(page[i], reason)];
    }
    assert page[..|page|] == page;
    answer := Listed(items, |order|, r.page, r.size, PageCount(|order|, r.size));
  }
}
