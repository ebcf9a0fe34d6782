/**
 * The read side of the GIBS pages and the configuration endpoints: the layer
 * search API, the catalog's filters and category list, the month navigation
 * of the Image of the Week archive, and saving and reading back a session's
 * map configuration.
 */
module GibsViews {
  import opened Common
  import opened Dates
  import opened Json
  import opened Sorting
  import opened GibsModels

  // ---------------------------------------------------------------------------
  // Filtering a query set
  // ---------------------------------------------------------------------------

  /** `.filter(...)` on an ordered query set: the rows that pass, in the same order. */
  function Filter<T>(rows: seq<T>, keep: T -> bool): (r: seq<T>)
    ensures |r| <= |rows|
    decreases |rows|
  {
    if rows == [] then []
    else (if keep(rows[0]) then [rows[0]] else []) + Filter(rows[1..], keep)
  }

  /** A row is in the filtered set exactly when it was in the set and passes. */
  lemma {:induction false} FilterMembership<T>(rows: seq<T>, keep: T -> bool)
    ensures forall x :: x in Filter(rows, keep) <==> x in rows && keep(x)
    decreases |rows|
  {
    if rows != [] {
      FilterMembership(rows[1..], keep);
      assert rows == [rows[0]] + rows[1..];
    }
  }

  lemma FilteredComesFrom<T>(rows: seq<T>, keep: T -> bool, x: T)
    requires x in Filter(rows, keep)
    ensures x in rows
  {
    FilterMembership(rows, keep);
  }

  /** Filtering keeps the order of the query set. */
  lemma {:induction false} FilterKeepsOrder<T>(rows: seq<T>, keep: T -> bool, le: (T, T) -> bool)
    requires SortedBy(rows, le)
    ensures SortedBy(Filter(rows, keep), le)
    decreases |rows|
  {
    if rows != [] {
      var rest := Filter(rows[1..], keep);
      FilterKeepsOrder(rows[1..], keep, le);
      FilterMembership(rows[1..], keep);
      if keep(rows[0]) {
        var r := [rows[0]] + rest;
        forall i, j | 0 <= i < j < |r| ensures le(r[i], r[j]) {
          if i == 0 {
            assert r[j] == rest[j - 1];
            FilteredComesFrom(rows[1..], keep, r[j]);
            var k :| 0 <= k < |rows[1..]| && rows[1..][k] == r[j];
            assert rows[k + 1] == r[j];
          } else {
            assert r[i] == rest[i - 1] && r[j] == rest[j - 1];
          }
        }
      }
    }
  }

  /** A filter every row passes changes nothing. */
  lemma {:induction false} FilterPassingAll<T>(rows: seq<T>, keep: T -> bool)
    requires forall i | 0 <= i < |rows| :: keep(rows[i])
    ensures Filter(rows, keep) == rows
    decreases |rows|
  {
    if rows != [] {
      FilterPassingAll(rows[1..], keep);
      assert rows == [rows[0]] + rows[1..];
    }
  }

  // ---------------------------------------------------------------------------
  // Listing the layer table
  // ---------------------------------------------------------------------------

  /** `ordered` lists every stored layer exactly once. */
  predicate ListsLayers(t: GibsTables, ordered: seq<GIBSLayer>) {
    && (forall i | 0 <= i < |ordered| :: ordered[i].layerId in t.layers && t.layers[ordered[i].layerId] == ordered[i])
    && (forall k | k in t.layers :: t.layers[k] in ordered)
    && (forall i, j | 0 <= i < j < |ordered| :: ordered[i].layerId != ordered[j].layerId)
  }

  /** `order_by('category', 'title')`. */
  predicate CategoryThenTitle(a: GIBSLayer, b: GIBSLayer) {
    if a.fields.category == b.fields.category then StrLe(a.fields.title, b.fields.title)
    else StrLe(a.fields.category, b.fields.category)
  }

  lemma CategoryThenTitleIsTotalPreorder()
    ensures TotalPreorder(CategoryThenTitle)
  {
    forall a: GIBSLayer, b: GIBSLayer ensures CategoryThenTitle(a, b) || CategoryThenTitle(b, a) {
      StrLeTotal(a.fields.category, b.fields.category);
      StrLeTotal(a.fields.title, b.fields.title);
    }
    forall a: GIBSLayer, b: GIBSLayer, c: GIBSLayer | CategoryThenTitle(a, b) && CategoryThenTitle(b, c)
      ensures CategoryThenTitle(a, c)
    {
      var ca, cb, cc := a.fields.category, b.fields.category, c.fields.category;
      if ca == cb && cb == cc {
        StrLeTransitive(a.fields.title, b.fields.title, c.fields.title);
      } else if ca == cb {
        assert StrLe(cb, cc);
      } else if cb == cc {
        assert StrLe(ca, cb);
      } else {
        StrLeTransitive(ca, cb, cc);
        if ca == cc {
          StrLeAntisymmetric(ca, cb);
        }
      }
    }
  }

  /** Any ordering of the rows: a valid layer table has a listing in that order. */
  lemma ListingExists(t: GibsTables, le: (GIBSLayer, GIBSLayer) -> bool)
    requires GibsTablesValid(t) && TotalPreorder(le)
    ensures exists ordered :: ListsLayers(t, ordered) && SortedBy(ordered, le)
  {
    var ordered := SortedListOf(t.layers.Values, le);
    forall i | 0 <= i < |ordered|
      ensures ordered[i].layerId in t.layers && t.layers[ordered[i].layerId] == ordered[i]
    {
      assert ordered[i] in t.layers.Values;
    }
    forall i, j | 0 <= i < j < |ordered| ensures ordered[i].layerId != ordered[j].layerId {
      assert ordered[i] != ordered[j];
      assert ordered[i] in t.layers.Values && ordered[j] in t.layers.Values;
    }
    assert ListsLayers(t, ordered);
  }

  // ---------------------------------------------------------------------------
  // api_search_layers
  // ---------------------------------------------------------------------------

  /** The `q` and `category` filters of the search. */
  predicate SearchKeeps(l: GIBSLayer, q: string, category: string) {
    && (q == "" || ContainsIgnoreCase(l.fields.title, q) || ContainsIgnoreCase(l.fields.description, q)
        || ContainsIgnoreCase(l.layerId, q))
    && (category == "" || category == "all" || l.fields.category == category)
  }

  function Matching(ordered: seq<GIBSLayer>, q: string, category: string): seq<GIBSLayer> {
    Filter(ordered, l => SearchKeeps(l, q, category))
  }

  /** One entry of the `layers` array of the answer. */
  datatype LayerSummary = LayerSummary(
    id: string,
    title: string,
    category: string,
    description: string,
    formatType: string,
    startDate: Option<string>,
    endDate: Option<string>)

  function IsoDate(d: Option<Date>): Option<string> {
    if d.Some? then Some(FormatDate(d.value)) else None
  }

  /**
   * The summary of a layer: an empty category shows as 'Other', an empty
   * format as 'jpg', and the description is cut to 100 characters.
   */
  function Summarize(l: GIBSLayer): (s: LayerSummary)
    ensures s.id == l.layerId && s.title == l.fields.title
    ensures s.category != "" && (l.fields.category != "" ==> s.category == l.fields.category)
    ensures s.formatType != "" && (l.fields.formatType != "" ==> s.formatType == l.fields.formatType)
    ensures |s.description| <= 100 && s.description <= l.fields.description
    ensures |l.fields.description| <= 100 ==> s.description == l.fields.description
    ensures s.startDate.Some? <==> l.fields.startDate.Some?
    ensures s.endDate.Some? <==> l.fields.endDate.Some?
  {
    LayerSummary(
      l.layerId,
      l.fields.title,
      if l.fields.category != "" then l.fields.category else "Other",
      if l.fields.description != "" then SlicePrefix(l.fields.description, 100) else "",
      if l.fields.formatType != "" then l.fields.formatType else "jpg",
      IsoDate(l.fields.startDate),
      IsoDate(l.fields.endDate))
  }

  function SummarizeAll(ls: seq<GIBSLayer>): (r: seq<LayerSummary>)
    ensures |r| == |ls| && forall i | 0 <= i < |ls| :: r[i] == Summarize(ls[i])
  {
    seq(|ls|, i requires 0 <= i < |ls| => Summarize(ls[i]))
  }

  /** The JSON answer, or a server error when `int(limit)` raises or the limit is negative. */
  datatype SearchReply = SearchResults(layers: seq<LayerSummary>, total: nat, returned: nat) | SearchFailed

  /**
   * `api_search_layers`: `ordered` is the layer table in (category, title)
   * order; the total counts every match, and a non-empty `limit` keeps only
   * the first `limit` of them.
   */
  function ApiSearchLayers(t: GibsTables, ordered: seq<GIBSLayer>, q: string, category: string, limit: Option<string>)
    : (r: SearchReply)
    requires ListsLayers(t, ordered) && SortedBy(ordered, CategoryThenTitle)
    ensures var m := Matching(ordered, q, category);
      && (r.SearchFailed? <==> limit.Some? && limit.value != "" && (ParseInt(limit.value).None? || ParseInt(limit.value).value < 0))
      && (r.SearchResults? ==>
            && r.total == |m| && r.returned == |r.layers| && r.returned <= r.total
            && (forall i | 0 <= i < |r.layers| :: r.layers[i] == Summarize(m[i]))
            && (limit.None? || limit.value == "" ==> r.returned == r.total)
            && (limit.Some? && limit.value != "" ==>
                  r.returned == if ParseInt(limit.value).value < r.total then ParseInt(limit.value).value else r.total))
  {
    var m := Matching(ordered, q, category);
    if limit.Some? && limit.value != "" then
      match ParseInt(limit.value)
      case None => SearchFailed
      case Some(n) =>
        if n < 0 then SearchFailed
        else
          var kept := SlicePrefix(m, n);
          SearchResults(SummarizeAll(kept), |m|, |kept|)
    else SearchResults(SummarizeAll(m), |m|, |m|)
  }

  /**
   * Before the limit, the matches are exactly the stored layers that pass
   * both filters, each once, in (category, title) order.
   */
  lemma SearchMatchesExactly(t: GibsTables, ordered: seq<GIBSLayer>, q: string, category: string)
    requires ListsLayers(t, ordered) && SortedBy(ordered, CategoryThenTitle)
    ensures var m := Matching(ordered, q, category);
      && (forall l :: l in m <==> l in t.layers.Values && SearchKeeps(l, q, category))
      && SortedBy(m, CategoryThenTitle)
  {
    FilterMembership(ordered, l => SearchKeeps(l, q, category));
    FilterKeepsOrder(ordered, l => SearchKeeps(l, q, category), CategoryThenTitle);
    forall l ensures l in ordered <==> l in t.layers.Values {
      if l in ordered {
        var i :| 0 <= i < |ordered| && ordered[i] == l;
      }
    }
  }

  /** With no query and no category (or 'all'), every layer is listed. */
  lemma EmptySearchListsAll(t: GibsTables, ordered: seq<GIBSLayer>, category: string)
    requires ListsLayers(t, ordered) && SortedBy(ordered, CategoryThenTitle)
    requires category == "" || category == "all"
    ensures Matching(ordered, "", category) == ordered
    ensures ApiSearchLayers(t, ordered, "", category, None) == SearchResults(SummarizeAll(ordered), |ordered|, |ordered|)
  {
    FilterPassingAll(ordered, l => SearchKeeps(l, "", category));
  }

  // ---------------------------------------------------------------------------
  // layers_catalog_view
  // ---------------------------------------------------------------------------

  /** The catalog's `category` (exact) and `search` (title or description) filters. */
  predicate CatalogKeeps(l: GIBSLayer, category: string, search: string) {
    && (category == "" || l.fields.category == category)
    && (search == "" || ContainsIgnoreCase(l.fields.title, search) || ContainsIgnoreCase(l.fields.description, search))
  }

  /** The catalog's layers: `ordered` is the table newest update first, the default ordering. */
  function CatalogLayers(t: GibsTables, ordered: seq<GIBSLayer>, category: string, search: string): (r: seq<GIBSLayer>)
    requires ListsLayers(t, ordered) && SortedBy(ordered, UpdatedNoEarlier)
  {
    Filter(ordered, l => CatalogKeeps(l, category, search))
  }

  /** The catalog lists exactly the stored layers that pass its filters, newest update first. */
  lemma CatalogMatchesExactly(t: GibsTables, ordered: seq<GIBSLayer>, category: string, search: string)
    requires ListsLayers(t, ordered) && SortedBy(ordered, UpdatedNoEarlier)
    ensures var r := CatalogLayers(t, ordered, category, search);
      && (forall l :: l in r <==> l in t.layers.Values && CatalogKeeps(l, category, search))
      && SortedBy(r, UpdatedNoEarlier)
  {
    FilterMembership(ordered, l => CatalogKeeps(l, category, search));
    FilterKeepsOrder(ordered, l => CatalogKeeps(l, category, search), UpdatedNoEarlier);
    forall l ensures l in ordered <==> l in t.layers.Values {
      if l in ordered {
        var i :| 0 <= i < |ordered| && ordered[i] == l;
      }
    }
  }

  /** The non-empty categories in use. */
  function CategoriesInUse(t: GibsTables): set<string> {
    set k | k in t.layers && t.layers[k].fields.category != "" :: t.layers[k].fields.category
  }

  lemma StrLeIsTotalPreorder()
    ensures TotalPreorder(StrLe)
  {
    forall a: string, b: string ensures StrLe(a, b) || StrLe(b, a) {
      StrLeTotal(a, b);
    }
    forall a: string, b: string, c: string | StrLe(a, b) && StrLe(b, c) ensures StrLe(a, c) {
      StrLeTransitive(a, b, c);
    }
  }

  /**
   * The rows `values_list('category', flat=True).distinct()` selects: with
   * the model's default ordering on `updated_at`, the query is distinct over
   * (category, updated_at) pairs, and `filter(None, ...)` then drops the
   * empty categories.
   */
  ghost function CategoryRows(t: GibsTables): set<(string, Instant)> {
    set k | k in t.layers && t.layers[k].fields.category != "" :: (t.layers[k].fields.category, t.layers[k].updatedAt)
  }

  function Firsts(rows: seq<(string, Instant)>): (r: seq<string>)
    ensures |r| == |rows| && forall i | 0 <= i < |rows| :: r[i] == rows[i].0
  {
    seq(|rows|, i requires 0 <= i < |rows| => rows[i].0)
  }

  lemma CategoryRowsCoverCategories(t: GibsTables, rows: seq<(string, Instant)>)
    requires forall p :: p in rows <==> p in CategoryRows(t)
    ensures forall c :: c in Firsts(rows) <==> c in CategoriesInUse(t)
  {
    var firsts := Firsts(rows);
    forall c ensures c in firsts <==> c in CategoriesInUse(t) {
      if c in firsts {
        var i :| 0 <= i < |firsts| && firsts[i] == c;
        assert rows[i] in CategoryRows(t);
      }
      if c in CategoriesInUse(t) {
        var k :| k in t.layers && t.layers[k].fields.category != "" && t.layers[k].fields.category == c;
        var p := (c, t.layers[k].updatedAt);
        assert p in CategoryRows(t);
        var i :| 0 <= i < |rows| && rows[i] == p;
        assert firsts[i] == c;
      }
    }
  }

  /**
   * `sorted(filter(None, categories))` as the view computes it: one entry per
   * distinct (category, updated_at) pair with a non-empty category, in
   * ascending order, so a category repeats once per distinct update time.
   */
  ghost function CatalogCategoriesAsWritten(t: GibsTables): (r: seq<string>)
    ensures SortedBy(r, StrLe)
    ensures |r| == |CategoryRows(t)|
    ensures forall c :: c in r <==> c in CategoriesInUse(t)
  {
    StrLeIsTotalPreorder();
    var rows := ListOf(CategoryRows(t));
    var r := SortBy(Firsts(rows), StrLe);
    CategoryRowsCoverCategories(t, rows);
    assert forall c :: c in r <==> c in multiset(r);
    assert forall c :: c in Firsts(rows) <==> c in multiset(Firsts(rows));
    r
  }

  lemma TwiceCountsTwice<T>(s: seq<T>, i: nat, j: nat)
    requires i < j < |s| && s[i] == s[j]
    ensures multiset(s)[s[i]] >= 2
  {
    assert s == s[..j] + s[j..];
    assert s[..j][i] == s[i];
    assert s[j..][0] == s[j];
  }

  lemma {:induction false} DistinctCountsOnce<T>(s: seq<T>, x: T)
    requires forall i, j | 0 <= i < j < |s| :: s[i] != s[j]
    ensures multiset(s)[x] <= 1
  {
    if s != [] {
      assert s == [s[0]] + s[1..];
      DistinctCountsOnce(s[1..], x);
      if s[0] == x {
        assert x !in s[1..] by {
          forall i | 0 <= i < |s[1..]| ensures s[1..][i] != x {
            assert s[1..][i] == s[i + 1];
          }
        }
      }
    }
  }

  /**
   * Two layers of one category updated at different times make the category
   * appear twice in the list the view builds, where the intended list names
   * it once.
   */
  lemma CatalogCategoriesRepeatAsWritten(t: GibsTables, k1: string, k2: string)
    requires k1 in t.layers && k2 in t.layers
    requires t.layers[k1].fields.category == t.layers[k2].fields.category != ""
    requires t.layers[k1].updatedAt != t.layers[k2].updatedAt
    ensures var c := t.layers[k1].fields.category;
      multiset(CatalogCategoriesAsWritten(t))[c] >= 2 && multiset(CatalogCategories(t))[c] == 1
  {
    var c := t.layers[k1].fields.category;
    StrLeIsTotalPreorder();
    var rows := ListOf(CategoryRows(t));
    var p1, p2 := (c, t.layers[k1].updatedAt), (c, t.layers[k2].updatedAt);
    assert p1 in CategoryRows(t) && p2 in CategoryRows(t);
    var i :| 0 <= i < |rows| && rows[i] == p1;
    var j :| 0 <= j < |rows| && rows[j] == p2;
    var firsts := Firsts(rows);
    assert firsts[i] == c && firsts[j] == c;
    if i < j {
      TwiceCountsTwice(firsts, i, j);
    } else {
      TwiceCountsTwice(firsts, j, i);
    }
    assert multiset(CatalogCategoriesAsWritten(t)) == multiset(firsts);
    var fixed := CatalogCategories(t);
    DistinctCountsOnce(fixed, c);
    assert c in fixed;
  }

  /**
   * The category list the catalog evidently intends: each category in use
   * once, no empty one, ascending. As written, the list repeats a category
   * once per distinct update time (see `CatalogCategoriesAsWritten`).
   */
  ghost function CatalogCategories(t: GibsTables): (r: seq<string>)
    ensures forall c :: c in r <==> c != "" && exists k | k in t.layers :: t.layers[k].fields.category == c
    ensures forall i, j | 0 <= i < j < |r| :: StrLe(r[i], r[j]) && r[i] != r[j]
  {
    StrLeIsTotalPreorder();
    SortedListOf(CategoriesInUse(t), StrLe)
  }

  // ---------------------------------------------------------------------------
  // image_of_week_view
  // ---------------------------------------------------------------------------

  /** The page of one month, or a server error when a date cannot be built. */
  datatype MonthPage =
    | MonthPage(year: int, month: int, images: seq<WorldviewImageOfWeek>, availableMonths: seq<Date>,
                nextMonth: Date, prevMonth: Date)
    | MonthPageFailed

  /** The first day of the month `d` falls in. */
  function MonthStart(d: Date): Date {
    Ymd(d.year, d.month, 1)
  }

  predicate NoEarlier(a: Date, b: Date) {
    DayNumber(a) >= DayNumber(b)
  }

  lemma NoEarlierIsTotalPreorder()
    ensures TotalPreorder(NoEarlier)
  {
  }

  /**
   * `dates('published_date', 'month', order='DESC')`: the first day of every
   * month in which an entry was published, each once, newest first.
   */
  ghost function AvailableMonths(t: GibsTables): seq<Date> {
    NoEarlierIsTotalPreorder();
    SortedListOf(PublishedMonths(t), NoEarlier)
  }

  ghost function PublishedMonths(t: GibsTables): set<Date> {
    set img | img in t.weekImages :: MonthStart(img.fields.publishedDate)
  }

  /** `int(year)` and `int(month)`, both falling back to the current month when either is not an integer. */
  function RequestedMonth(yearParam: Option<string>, monthParam: Option<string>, now: Instant): (int, int) {
    var y := if yearParam.Some? then ParseInt(yearParam.value) else Some(now.date.year);
    var m := if monthParam.Some? then ParseInt(monthParam.value) else Some(now.date.month);
    if y.None? || m.None? then (now.date.year, now.date.month) else (y.value, m.value)
  }

  predicate PublishedIn(img: WorldviewImageOfWeek, year: int, month: int) {
    img.fields.publishedDate.year == year && img.fields.publishedDate.month == month
  }

  /**
   * `image_of_week_view`: the month's entries, newest first, and the first
   * days of the next and previous months; an impossible month, or stepping
   * outside years 1 to 9999, raises.
   */
  ghost function ImageOfWeek(t: GibsTables, yearParam: Option<string>, monthParam: Option<string>, now: Instant)
    : MonthPage
  {
    var (year, month) := RequestedMonth(yearParam, monthParam, now);
    if !(1 <= month <= 12 && MinYear <= year <= MaxYear) then MonthPageFailed
    else
      var first: Date := Ymd(year, month, 1);
      var later := AddDays(first, 32);
      var earlier := SubDays(first, 1);
      if !InPythonRange(later) || !InPythonRange(earlier) then MonthPageFailed
      else
        MonthPage(year, month, Filter(WeekImagesInDefaultOrder(t), img => PublishedIn(img, year, month)),
                  AvailableMonths(t), Ymd(later.year, later.month, 1), Ymd(earlier.year, earlier.month, 1))
  }

  /**
   * The page shows exactly the month's entries, newest first; `next_month`
   * is the first day of the following month and `prev_month` the first day
   * of the one before.
   */
  lemma MonthNavigation(t: GibsTables, yearParam: Option<string>, monthParam: Option<string>, now: Instant)
    ensures var p := ImageOfWeek(t, yearParam, monthParam, now);
      p.MonthPage? ==>
        && 1 <= p.month <= 12
        && (p.nextMonth.year, p.nextMonth.month) == NextMonthYm(p.year, p.month) && p.nextMonth.day == 1
        && (p.prevMonth.year, p.prevMonth.month) == PrevMonthYm(p.year, p.month) && p.prevMonth.day == 1
        && (forall img :: img in p.images <==> img in t.weekImages && PublishedIn(img, p.year, p.month))
        && (forall i, j | 0 <= i < j < |p.images| ::
              DayNumber(p.images[i].fields.publishedDate) >= DayNumber(p.images[j].fields.publishedDate))
  {
    var p := ImageOfWeek(t, yearParam, monthParam, now);
    if p.MonthPage? {
      var all := WeekImagesInDefaultOrder(t);
      ThirtyTwoDaysLandInNextMonth(p.year, p.month);
      DayBeforeFirstIsInPreviousMonth(p.year, p.month);
      FilterMembership(all, img => PublishedIn(img, p.year, p.month));
      FilterKeepsOrder(all, img => PublishedIn(img, p.year, p.month), PublishedNoEarlier);
      forall img ensures img in all <==> img in t.weekImages {
        assert img in all <==> img in multiset(all);
        assert img in t.weekImages <==> img in multiset(t.weekImages);
      }
    }
  }

  /**
   * Whatever month is shown, the page lists every month that has an entry,
   * each once and newest first, and no other.
   */
  lemma MonthPageListsPublishedMonths(t: GibsTables, yearParam: Option<string>, monthParam: Option<string>, now: Instant)
    requires ImageOfWeek(t, yearParam, monthParam, now).MonthPage?
    ensures var months := ImageOfWeek(t, yearParam, monthParam, now).availableMonths;
      && (forall img | img in t.weekImages :: Ymd(img.fields.publishedDate.year, img.fields.publishedDate.month, 1) in months)
      && (forall d | d in months :: exists img | img in t.weekImages ::
            d.year == img.fields.publishedDate.year && d.month == img.fields.publishedDate.month && d.day == 1)
      && (forall i, j | 0 <= i < j < |months| :: DayNumber(months[i]) > DayNumber(months[j]))
  {
    NoEarlierIsTotalPreorder();
    var published := PublishedMonths(t);
    var months := AvailableMonths(t);
    assert months == SortedListOf(published, NoEarlier);
    forall img | img in t.weekImages
      ensures Ymd(img.fields.publishedDate.year, img.fields.publishedDate.month, 1) in months
    {
      assert MonthStart(img.fields.publishedDate) in published;
    }
    forall d | d in months
      ensures exists img | img in t.weekImages ::
        d.year == img.fields.publishedDate.year && d.month == img.fields.publishedDate.month && d.day == 1
    {
      assert d in published;
      var img :| img in t.weekImages && MonthStart(img.fields.publishedDate) == d;
    }
    forall i, j | 0 <= i < j < |months| ensures DayNumber(months[i]) > DayNumber(months[j]) {
      assert NoEarlier(months[i], months[j]) && months[i] != months[j];
      if DayNumber(months[i]) == DayNumber(months[j]) {
        DayNumberDeterminesDate(months[i], months[j]);
      }
    }
  }

  /** A year or month that is not an integer shows the current month. */
  lemma NonIntegerMonthFallsBack(yearParam: Option<string>, monthParam: Option<string>, now: Instant)
    requires (yearParam.Some? && ParseInt(yearParam.value).None?) || (monthParam.Some? && ParseInt(monthParam.value).None?)
    ensures RequestedMonth(yearParam, monthParam, now) == (now.date.year, now.date.month)
  {
  }

  // ---------------------------------------------------------------------------
  // api_save_config and api_get_config
  // ---------------------------------------------------------------------------

  /** The session used: the request's key, or the key of a freshly created session. */
  function SessionOf(sessionKey: Option<string>, freshKey: string): string {
    if sessionKey.Some? && sessionKey.value != "" then sessionKey.value else freshKey
  }

  /** SQLite's 64-bit INTEGER. */
  predicate InSqliteIntRange(i: int) {
    -0x8000_0000_0000_0000 <= i < 0x8000_0000_0000_0000
  }

  /** `datetime.fromisoformat(value).date()`, `None` when it raises. */
  function IsoDateOf(v: JsonValue): Option<Date> {
    if v.JString? then FromIsoFormat(v.s) else None
  }

  /**
   * The settings `save()` writes from the request object `m` onto a
   * configuration holding `current`; `None` when a value cannot be converted
   * or is null in a NOT NULL column.
   */
  function SettingsFromRequest(m: map<string, JsonValue>, current: ConfigSettings)
    : (r: Option<ConfigSettings>)
    ensures r.Some? ==>
      && r.value.activeLayers == Member(m, "activeLayers", JArray([]))
      && r.value.layerOpacity == Member(m, "layerOpacity", JObject(map[]))
      && Some(r.value.centerLat) == FloatOf(Member(m, "centerLat", JFraction(0.0)))
      && Some(r.value.centerLon) == FloatOf(Member(m, "centerLon", JFraction(0.0)))
      && Some(r.value.zoomLevel) == IntOf(Member(m, "zoomLevel", JInt(DefaultZoomLevel)))
      && r.value.projection == PyStr(Member(m, "projection", JString(DefaultProjection)))
      && ("currentDate" !in m ==> r.value.currentDate == current.currentDate)
      && ("currentDate" in m ==> IsoDateOf(m["currentDate"]) == Some(r.value.currentDate))
    ensures "currentDate" in m && IsoDateOf(m["currentDate"]).None? ==> r.None?
    ensures Member(m, "activeLayers", JArray([])) == JNull || Member(m, "projection", JString(DefaultProjection)) == JNull
      ==> r.None?
  {
    var active := Member(m, "activeLayers", JArray([]));
    var opacity := Member(m, "layerOpacity", JObject(map[]));
    var lat := FloatOf(Member(m, "centerLat", JFraction(0.0)));
    var lon := FloatOf(Member(m, "centerLon", JFraction(0.0)));
    var zoom := IntOf(Member(m, "zoomLevel", JInt(DefaultZoomLevel)));
    var projection := Member(m, "projection", JString(DefaultProjection));
    var date := if "currentDate" in m then IsoDateOf(m["currentDate"]) else Some(current.currentDate);
    if date.None? || active == JNull || opacity == JNull || lat.None? || lon.None? || zoom.None?
       || !InSqliteIntRange(zoom.value) || projection == JNull
    then None
    else Some(ConfigSettings(active, opacity, lat.value, lon.value, zoom.value, PyStr(projection), date.value))
  }

  /** A current date written YYYY-MM-DD is the date saved. */
  lemma SavedDateIsTheIsoDate(m: map<string, JsonValue>, current: ConfigSettings, d: Date)
    requires InPythonRange(d) && "currentDate" in m && m["currentDate"] == JString(FormatDate(d))
    ensures var r := SettingsFromRequest(m, current);
      r.Some? ==> r.value.currentDate == d
  {
    FromIsoFormatRoundTrip(d);
  }

  /** A current date without zero padding, such as 2024-1-5, makes the save fail. */
  lemma UnpaddedDateIsRefused(m: map<string, JsonValue>, current: ConfigSettings, d: Date)
    requires InPythonRange(d) && d.month < 10 && d.day < 10
    requires "currentDate" in m && m["currentDate"] == JString(UnpaddedDate(d))
    ensures SettingsFromRequest(m, current).None?
  {
    UnpaddedDateOnlyForStrptime(d);
  }

  datatype SaveReply = ConfigSaved | SaveRejected   // {'status': 'success'} / {'status': 'error'} with 400

  /**
   * `api_save_config`: the tables afterwards and the reply. The configuration
   * row `get_or_create` adds stays even when a later step fails.
   */
  function SaveConfigEffect(t: GibsTables, body: RequestBody, sessionKey: Option<string>, freshKey: string,
                            now: Instant): (GibsTables, SaveReply)
  {
    if body.Malformed? then (t, SaveRejected)
    else
      match GetOrCreateConfig(t, SessionOf(sessionKey, freshKey), now)
      case None => (t, SaveRejected)
      case Some((t1, i)) =>
        if !body.value.JObject? then (t1, SaveRejected)
        else
          match SettingsFromRequest(body.value.members, t1.configs[i].settings)
          case None => (t1, SaveRejected)
          case Some(s) => (SaveConfig(t1, i, s, now), ConfigSaved)
  }

  method ApiSaveConfig(db: GibsDatabase, body: RequestBody, sessionKey: Option<string>, freshKey: string,
                       now: Instant) returns (reply: SaveReply)
    modifies db
    ensures (db.Tables(), reply) == SaveConfigEffect(old(db.Tables()), body, sessionKey, freshKey, now)
  {
    if body.Malformed? {
      return SaveRejected;
    }
    var sessionId := if sessionKey.Some? && sessionKey.value != "" then sessionKey.value else freshKey;
    var found := db.GetOrCreateConfigRow(sessionId, now);
    if found.None? {
      return SaveRejected;
    }
    var i := found.value;
    if !body.value.JObject? {
      return SaveRejected;
    }
    var settings := SettingsFromRequest(body.value.members, db.configs[i].settings);
    if settings.None? {
      return SaveRejected;
    }
    db.SaveConfigRow(i, settings.value, now);
    reply := ConfigSaved;
  }

  /** The reply of `api_get_config`: no configuration, its values, or a server error. */
  datatype ConfigReply = NoConfig | ConfigFound(settings: ConfigSettings, currentDate: string) | GetFailed

  /** `api_get_config`: `objects.get(session_id=…)`, which raises when two configurations share the session. */
  function ApiGetConfig(t: GibsTables, sessionKey: Option<string>): ConfigReply {
    if sessionKey.None? || sessionKey.value == "" then NoConfig
    else
      var n := CountSession(t.configs, sessionKey.value);
      if n == 0 then NoConfig
      else if n >= 2 then GetFailed
      else
        var i := FirstOfSession(t.configs, sessionKey.value).value;
        ConfigFound(t.configs[i].settings, FormatDate(t.configs[i].settings.currentDate))
  }

  /** The settings a session's configuration holds before the save: the stored ones, or the defaults. */
  function PriorSettings(t: GibsTables, sessionId: string, now: Instant): ConfigSettings {
    match FirstOfSession(t.configs, sessionId)
    case Some(i) => t.configs[i].settings
    case None => DefaultSettings(now)
  }

  lemma {:induction false} CountSessionAppend(cs: seq<UserLayerConfig>, c: UserLayerConfig, s: string)
    ensures CountSession(cs + [c], s) == CountSession(cs, s) + (if c.sessionId == s then 1 else 0)
    decreases |cs|
  {
    if cs == [] {
      assert [c][1..] == [];
    } else {
      assert (cs + [c])[1..] == cs[1..] + [c];
      CountSessionAppend(cs[1..], c, s);
    }
  }

  lemma {:induction false} CountSessionUpdate(cs: seq<UserLayerConfig>, i: nat, c: UserLayerConfig, s: string)
    requires i < |cs| && c.sessionId == cs[i].sessionId
    ensures CountSession(cs[i := c], s) == CountSession(cs, s)
    ensures FirstOfSession(cs[i := c], s) == FirstOfSession(cs, s)
    decreases |cs|
  {
    if i > 0 {
      assert cs[i := c][1..] == cs[1..][i - 1 := c];
      CountSessionUpdate(cs[1..], i - 1, c, s);
    }
  }

  /** When a session has one configuration, it is the first one found. */
  lemma {:induction false} OnlyConfigIsFirst(cs: seq<UserLayerConfig>, s: string, i: nat)
    requires i < |cs| && cs[i].sessionId == s && CountSession(cs, s) == 1
    ensures FirstOfSession(cs, s) == Some(i)
    decreases |cs|
  {
    if i == 0 {
      assert cs[0].sessionId == s;
    } else if cs[0].sessionId == s {
      CountSessionPositive(cs[1..], s, i - 1);
      assert false;
    } else {
      OnlyConfigIsFirst(cs[1..], s, i - 1);
    }
  }

  lemma {:induction false} CountSessionPositive(cs: seq<UserLayerConfig>, s: string, i: nat)
    requires i < |cs| && cs[i].sessionId == s
    ensures CountSession(cs, s) >= 1
    decreases |cs|
  {
    if i > 0 {
      CountSessionPositive(cs[1..], s, i - 1);
    }
  }

  /**
   * A saved configuration reads back: after a successful save under a
   * session key, `api_get_config` with that key answers with the settings
   * built from the request over the session's previous (or default)
   * settings, and its date in ISO form.
   */
  lemma SaveThenGet(t: GibsTables, body: RequestBody, key: string, freshKey: string, now: Instant)
    requires key != ""
    ensures var r := SaveConfigEffect(t, body, Some(key), freshKey, now);
      r.1 == ConfigSaved ==>
        && body.Decoded? && body.value.JObject?
        && var s := SettingsFromRequest(body.value.members, PriorSettings(t, key, now));
        && s.Some?
        && ApiGetConfig(r.0, Some(key)) == ConfigFound(s.value, FormatDate(s.value.currentDate))
  {
    var r := SaveConfigEffect(t, body, Some(key), freshKey, now);
    if r.1 == ConfigSaved {
      var (t1, i) := GetOrCreateConfig(t, key, now).value;
      var s := SettingsFromRequest(body.value.members, t1.configs[i].settings).value;
      if CountSession(t.configs, key) == 0 {
        CountSessionAppend(t.configs, UserLayerConfig(key, DefaultSettings(now), now, now), key);
      }
      assert t1.configs[i].settings == PriorSettings(t, key, now);
      assert CountSession(t1.configs, key) == 1;
      OnlyConfigIsFirst(t1.configs, key, i);
      CountSessionUpdate(t1.configs, i, t1.configs[i].(settings := s, updatedAt := now), key);
    }
  }

  /**
   * A rejected request never changes an existing configuration: at most the
   * row `get_or_create` added for a new session remains, with the defaults.
   */
  lemma RejectedSaveKeepsConfigs(t: GibsTables, body: RequestBody, sessionKey: Option<string>, freshKey: string,
                                 now: Instant)
    ensures var r := SaveConfigEffect(t, body, sessionKey, freshKey, now);
      r.1 == SaveRejected ==>
        && r.0.layers == t.layers && r.0.weekImages == t.weekImages
        && (r.0.configs == t.configs
            || r.0.configs == t.configs + [UserLayerConfig(SessionOf(sessionKey, freshKey), DefaultSettings(now), now, now)])
  {
  }
}
