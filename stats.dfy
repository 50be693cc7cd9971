/**
 * The `stats` command's aggregation: take the latest batch, map each
 * history row's url to its app's category ("Others" when there is none),
 * sum the parsed amounts and collect the distinct urls per category, and
 * sort the categories by descending total. The table rendering is not
 * modelled; the report carries the figures it shows.
 */
module Stats {
  import opened Wrappers
  import opened TokenParse
  import opened Store

  /** One category's figures: the summed amount, the distinct url count, and the urls. */
  datatype CategoryStats = CategoryStats(category: string, totalTokens: int, appCount: nat, apps: set<string>)

  /** What the command ends with: one of the two early exits, or the figures of the table. */
  datatype StatsReport =
    | NoBatches
    | NoUsage(batchId: nat)
    | Report(batchId: nat, sortedStats: seq<CategoryStats>, totalTokensAllCategories: int, totalAppCount: int)

  /* ---------------- Steps 1 and 2: the latest batch and its rows ---------------- */

  /** The latest batch: the largest batch id, if any batch exists. */
  function LatestBatchId(batches: seq<BatchRow>): (r: Option<nat>)
    ensures r.None? <==> batches == []
    ensures r.Some? ==> exists i :: 0 <= i < |batches| && batches[i].id == r.value
    ensures r.Some? ==> forall i :: 0 <= i < |batches| ==> batches[i].id <= r.value
  {
    if batches == [] then None
    else
      var init := batches[..|batches| - 1];
      var last := batches[|batches| - 1];
      var m := LatestBatchId(init);
      assert forall i :: 0 <= i < |init| ==> init[i] == batches[i];
      if m.None? || last.id > m.value then Some(last.id) else m
  }

  /** The usage rows tagged with this batch id, in table order. */
  function RowsOfBatch(history: seq<HistoryRow>, batchId: nat): seq<HistoryRow> {
    if history == [] then []
    else
      var last := history[|history| - 1];
      RowsOfBatch(history[..|history| - 1], batchId) + (if last.collectBatchId == batchId then [last] else [])
  }

  /**
   * The aggregated rows are exactly the history rows of that batch, each as
   * many times as it occurs in the history.
   */
  lemma {:induction false} RowsOfBatchMembers(history: seq<HistoryRow>, batchId: nat)
    ensures forall x :: x in RowsOfBatch(history, batchId) <==> x in history && x.collectBatchId == batchId
    ensures forall x :: multiset(RowsOfBatch(history, batchId))[x] == if x.collectBatchId == batchId then multiset(history)[x] else 0
  {
    if history != [] {
      RowsOfBatchMembers(history[..|history| - 1], batchId);
      assert history == history[..|history| - 1] + [history[|history| - 1]];
    }
  }

  /* ---------------- Step 3: url to category ---------------- */

  /** A null or empty (falsy) category reads as "Others". */
  function CategoryText(category: Option<string>): (r: string)
    ensures r != ""
    ensures category.Some? && category.value != "" ==> r == category.value
    ensures category.None? || category.value == "" ==> r == "Others"
  {
    if category.Some? && category.value != "" then category.value else "Others"
  }

  /** The category a url resolves to: the last stored app with that url decides, and an unknown url is "Others". */
  function CategoryOf(allApps: seq<AppRow>, url: string): (r: string)
    ensures r != ""
  {
    if allApps == [] then "Others"
    else if allApps[|allApps| - 1].url == url then CategoryText(allApps[|allApps| - 1].category)
    else CategoryOf(allApps[..|allApps| - 1], url)
  }

  /** With unique urls, a stored url takes its own app's category; a url no app has is "Others". */
  lemma {:induction false} CategoryOfSpec(allApps: seq<AppRow>, url: string)
    requires AppUrlsUnique(allApps)
    ensures forall i :: 0 <= i < |allApps| && allApps[i].url == url ==> CategoryOf(allApps, url) == CategoryText(allApps[i].category)
    ensures (forall i :: 0 <= i < |allApps| ==> allApps[i].url != url) ==> CategoryOf(allApps, url) == "Others"
  {
    if allApps != [] {
      var init := allApps[..|allApps| - 1];
      assert AppUrlsUnique(init) by {
        forall i, j | 0 <= i < j < |init| ensures init[i].url != init[j].url {
          assert init[i] == allApps[i] && init[j] == allApps[j];
        }
      }
      CategoryOfSpec(init, url);
      forall i | 0 <= i < |init| ensures init[i] == allApps[i] { }
    }
  }

  /** The url map holds the category of every stored url, and only stored urls. */
  ghost predicate MapsCategories(urlToCategoryMap: map<string, string>, allApps: seq<AppRow>) {
    && (forall u :: u in urlToCategoryMap ==> urlToCategoryMap[u] == CategoryOf(allApps, u))
    && (forall u :: u !in urlToCategoryMap ==> CategoryOf(allApps, u) == "Others")
  }

  /** The loop filling `urlToCategoryMap`, a later app overwriting an earlier one with the same url. */
  method BuildCategoryMap(allApps: seq<AppRow>) returns (urlToCategoryMap: map<string, string>)
    ensures MapsCategories(urlToCategoryMap, allApps)
    ensures forall u :: u in urlToCategoryMap <==> exists i :: 0 <= i < |allApps| && allApps[i].url == u
  {
    urlToCategoryMap := map[];
    for k := 0 to |allApps|
      invariant MapsCategories(urlToCategoryMap, allApps[..k])
      invariant forall u :: u in urlToCategoryMap <==> exists i :: 0 <= i < k && allApps[i].url == u
    {
      var app := allApps[k];
      assert allApps[..k + 1][..k] == allApps[..k];
      urlToCategoryMap := urlToCategoryMap[app.url := CategoryText(app.category)];
    }
    assert allApps[..|allApps|] == allApps;
  }

  /* ---------------- Step 4: aggregation, as functions of the rows ---------------- */

  /**
   * How a history row is read: its url's category and its amount. The command
   * uses `StoreReading`; the aggregation lemmas hold for any reading.
   */
  datatype Reading = Reading(categoryOf: string -> string, amount: string -> int)

  /** The stored apps' categories and `parseTokenString`. */
  function StoreReading(allApps: seq<AppRow>): Reading {
    Reading(url => CategoryOf(allApps, url), ParseTokenString)
  }

  /** The url map (a missing or empty entry reading as "Others") and `parseTokenString` read rows as `rd` does. */
  ghost predicate ReadsAs(urlToCategoryMap: map<string, string>, rd: Reading) {
    && (forall u :: rd.categoryOf(u) == if u in urlToCategoryMap && urlToCategoryMap[u] != "" then urlToCategoryMap[u] else "Others")
    && (forall s :: rd.amount(s) == ParseTokenString(s))
  }

  lemma StoreReadingMatches(urlToCategoryMap: map<string, string>, allApps: seq<AppRow>)
    requires MapsCategories(urlToCategoryMap, allApps)
    ensures ReadsAs(urlToCategoryMap, StoreReading(allApps))
  {
  }

  /** The category of one history row. */
  function RowCategory(rd: Reading, row: HistoryRow): string {
    rd.categoryOf(row.appUrl)
  }

  /** The categories in order of first appearance: the key order of `categoryStatsMap`. */
  function Categories(rows: seq<HistoryRow>, rd: Reading): seq<string> {
    if rows == [] then []
    else
      var cats := Categories(rows[..|rows| - 1], rd);
      var c := RowCategory(rd, rows[|rows| - 1]);
      if c in cats then cats else cats + [c]
  }

  /** The sum of one category's parsed amounts. */
  function TokensIn(rows: seq<HistoryRow>, rd: Reading, category: string): int {
    if rows == [] then 0
    else
      var last := rows[|rows| - 1];
      TokensIn(rows[..|rows| - 1], rd, category)
        + (if RowCategory(rd, last) == category then rd.amount(last.tokensUsed) else 0)
  }

  /** One category's url set. */
  function UrlsIn(rows: seq<HistoryRow>, rd: Reading, category: string): set<string> {
    if rows == [] then {}
    else
      var last := rows[|rows| - 1];
      UrlsIn(rows[..|rows| - 1], rd, category) + (if RowCategory(rd, last) == category then {last.appUrl} else {})
  }

  /** The sum of all parsed amounts. */
  function SumTokens(rows: seq<HistoryRow>, rd: Reading): int {
    if rows == [] then 0 else SumTokens(rows[..|rows| - 1], rd) + rd.amount(rows[|rows| - 1].tokensUsed)
  }

  /** All distinct urls of the rows. */
  function AllUrls(rows: seq<HistoryRow>): set<string> {
    if rows == [] then {} else AllUrls(rows[..|rows| - 1]) + {rows[|rows| - 1].appUrl}
  }

  /** One category's entry once the app counts are filled in. */
  function Entry(rows: seq<HistoryRow>, rd: Reading, category: string): CategoryStats {
    CategoryStats(category, TokensIn(rows, rd, category), |UrlsIn(rows, rd, category)|, UrlsIn(rows, rd, category))
  }

  /** The entries of the given categories, in that order. */
  function EntriesOf(cats: seq<string>, rows: seq<HistoryRow>, rd: Reading): seq<CategoryStats> {
    if cats == [] then [] else EntriesOf(cats[..|cats| - 1], rows, rd) + [Entry(rows, rd, cats[|cats| - 1])]
  }

  function SumTotals(stats: seq<CategoryStats>): int {
    if stats == [] then 0 else SumTotals(stats[..|stats| - 1]) + stats[|stats| - 1].totalTokens
  }

  /** The sum of the app counts, as the TOTAL row shows it. */
  function SumAppCounts(stats: seq<CategoryStats>): int {
    if stats == [] then 0 else SumAppCounts(stats[..|stats| - 1]) + stats[|stats| - 1].appCount
  }

  /** The last row's contribution to the category order and the overall sums, read off the definitions. */
  lemma Unsnoc(rows: seq<HistoryRow>, rd: Reading)
    requires rows != []
    ensures Categories(rows, rd) ==
      if RowCategory(rd, rows[|rows| - 1]) in Categories(rows[..|rows| - 1], rd) then Categories(rows[..|rows| - 1], rd)
      else Categories(rows[..|rows| - 1], rd) + [RowCategory(rd, rows[|rows| - 1])]
    ensures SumTokens(rows, rd) == SumTokens(rows[..|rows| - 1], rd) + rd.amount(rows[|rows| - 1].tokensUsed)
    ensures AllUrls(rows) == AllUrls(rows[..|rows| - 1]) + {rows[|rows| - 1].appUrl}
  {
  }

  /** The last row's contribution to each category's amount and urls, read off the definitions. */
  lemma UnsnocCategories(rows: seq<HistoryRow>, rd: Reading)
    requires rows != []
    ensures forall c :: (TokensIn(rows, rd, c) ==
      TokensIn(rows[..|rows| - 1], rd, c)
        + (if RowCategory(rd, rows[|rows| - 1]) == c then rd.amount(rows[|rows| - 1].tokensUsed) else 0))
    ensures forall c :: (UrlsIn(rows, rd, c) ==
      UrlsIn(rows[..|rows| - 1], rd, c) + (if RowCategory(rd, rows[|rows| - 1]) == c then {rows[|rows| - 1].appUrl} else {}))
  {
  }

  /** The categories are distinct, and are exactly the categories some row resolves to. */
  lemma {:induction false} CategoriesSpec(rows: seq<HistoryRow>, rd: Reading)
    ensures Distinct(Categories(rows, rd))
    ensures forall c :: c in Categories(rows, rd) <==> exists k :: 0 <= k < |rows| && RowCategory(rd, rows[k]) == c
  {
    if rows != [] {
      var init := rows[..|rows| - 1];
      CategoriesSpec(init, rd);
      var cats := Categories(init, rd);
      forall c ensures c in Categories(rows, rd) <==> exists k :: 0 <= k < |rows| && RowCategory(rd, rows[k]) == c {
        if c in cats {
          var k :| 0 <= k < |init| && RowCategory(rd, init[k]) == c;
          assert rows[k] == init[k];
        }
        if exists k :: 0 <= k < |rows| && RowCategory(rd, rows[k]) == c {
          var k :| 0 <= k < |rows| && RowCategory(rd, rows[k]) == c;
          if k < |init| {
            assert init[k] == rows[k];
          }
        }
      }
    }
  }

  /** A category no row resolves to has no amount and no urls. */
  lemma {:induction false} AbsentCategory(rows: seq<HistoryRow>, rd: Reading, category: string)
    requires category !in Categories(rows, rd)
    ensures TokensIn(rows, rd, category) == 0 && UrlsIn(rows, rd, category) == {}
  {
    if rows != [] {
      var init := rows[..|rows| - 1];
      assert Categories(init, rd) <= Categories(rows, rd);
      AbsentCategory(init, rd, category);
    }
  }

  /** A url is in a category's set exactly when some row has it and it resolves to that category. */
  lemma {:induction false} UrlsInSpec(rows: seq<HistoryRow>, rd: Reading, category: string, url: string)
    ensures url in UrlsIn(rows, rd, category) <==> url in AllUrls(rows) && rd.categoryOf(url) == category
  {
    if rows != [] {
      UrlsInSpec(rows[..|rows| - 1], rd, category, url);
    }
  }

  /** Entry `i` of `EntriesOf(cats, …)` is the entry of `cats[i]`. */
  lemma {:induction false} EntriesOfPointwise(cats: seq<string>, rows: seq<HistoryRow>, rd: Reading)
    ensures |EntriesOf(cats, rows, rd)| == |cats|
    ensures forall i :: 0 <= i < |cats| ==> EntriesOf(cats, rows, rd)[i] == Entry(rows, rd, cats[i])
  {
    if cats != [] {
      EntriesOfPointwise(cats[..|cats| - 1], rows, rd);
    }
  }

  lemma EntriesSnoc(cats: seq<string>, c: string, rows: seq<HistoryRow>, rd: Reading)
    ensures EntriesOf(cats + [c], rows, rd) == EntriesOf(cats, rows, rd) + [Entry(rows, rd, c)]
  {
    assert (cats + [c])[..|cats|] == cats;
  }

  lemma SumsSnoc(stats: seq<CategoryStats>, e: CategoryStats)
    ensures SumTotals(stats + [e]) == SumTotals(stats) + e.totalTokens
    ensures SumAppCounts(stats + [e]) == SumAppCounts(stats) + e.appCount
  {
    assert (stats + [e])[..|stats|] == stats;
  }

  /** No category is listed twice. */
  predicate Distinct(cats: seq<string>) {
    forall i, j :: 0 <= i < j < |cats| ==> cats[i] != cats[j]
  }

  /** Dropping the last of distinct categories leaves distinct categories without it. */
  lemma DistinctInit(cats: seq<string>)
    requires cats != [] && Distinct(cats)
    ensures Distinct(cats[..|cats| - 1])
    ensures cats[|cats| - 1] !in cats[..|cats| - 1]
    ensures forall x :: x in cats <==> x in cats[..|cats| - 1] || x == cats[|cats| - 1]
  {
    var init := cats[..|cats| - 1];
    assert cats == init + [cats[|cats| - 1]];
  }

  /** When one category's amount grows by `t` and the others stay, the listed totals grow by `t` if it is listed. */
  lemma {:induction false} TotalsShift(cats: seq<string>, rows: seq<HistoryRow>, rows': seq<HistoryRow>, rd: Reading, c0: string, t: int)
    requires Distinct(cats)
    requires forall c :: TokensIn(rows', rd, c) == TokensIn(rows, rd, c) + (if c == c0 then t else 0)
    ensures SumTotals(EntriesOf(cats, rows', rd)) == SumTotals(EntriesOf(cats, rows, rd)) + (if c0 in cats then t else 0)
  {
    if cats != [] {
      var init := cats[..|cats| - 1];
      var c := cats[|cats| - 1];
      DistinctInit(cats);
      TotalsShift(init, rows, rows', rd, c0, t);
      SumsSnoc(EntriesOf(init, rows, rd), Entry(rows, rd, c));
      SumsSnoc(EntriesOf(init, rows', rd), Entry(rows', rd, c));
    }
  }

  /** Adding `u` to a set grows its size by one exactly when `u` is new. */
  lemma AddedUrlCount(urls: set<string>, u: string)
    ensures |urls + {u}| == |urls| + (if u in urls then 0 else 1)
  {
    if u in urls {
      assert urls + {u} == urls;
    }
  }

  /** When one category gains url `u` and the others stay, the listed counts grow by one if `u` is new to it. */
  lemma {:induction false} AppCountsShift(cats: seq<string>, rows: seq<HistoryRow>, rows': seq<HistoryRow>, rd: Reading, c0: string, u: string)
    requires Distinct(cats)
    requires forall c :: UrlsIn(rows', rd, c) == UrlsIn(rows, rd, c) + (if c == c0 then {u} else {})
    ensures SumAppCounts(EntriesOf(cats, rows', rd)) ==
      SumAppCounts(EntriesOf(cats, rows, rd)) + (if c0 in cats && u !in UrlsIn(rows, rd, c0) then 1 else 0)
  {
    if cats != [] {
      var init := cats[..|cats| - 1];
      var c := cats[|cats| - 1];
      DistinctInit(cats);
      AppCountsShift(init, rows, rows', rd, c0, u);
      SumsSnoc(EntriesOf(init, rows, rd), Entry(rows, rd, c));
      SumsSnoc(EntriesOf(init, rows', rd), Entry(rows', rd, c));
      var before := UrlsIn(rows, rd, c);
      assert Entry(rows', rd, c).appCount == Entry(rows, rd, c).appCount + (if c == c0 && u !in before then 1 else 0) by {
        if c == c0 {
          AddedUrlCount(before, u);
        } else {
          assert UrlsIn(rows', rd, c) == before;
        }
      }
    }
  }

  /** The per-category totals add up to the sum of all parsed amounts. */
  lemma {:induction false} TotalsAddUp(rows: seq<HistoryRow>, rd: Reading)
    ensures SumTotals(EntriesOf(Categories(rows, rd), rows, rd)) == SumTokens(rows, rd)
  {
    if rows != [] {
      var init := rows[..|rows| - 1];
      var r := rows[|rows| - 1];
      TotalsAddUp(init, rd);
      var cats := Categories(init, rd);
      var c := RowCategory(rd, r);
      CategoriesSpec(init, rd);
      Unsnoc(rows, rd);
      UnsnocCategories(rows, rd);
      TotalsShift(cats, init, rows, rd, c, rd.amount(r.tokensUsed));
      if c !in cats {
        AbsentCategory(init, rd, c);
        EntriesSnoc(cats, c, rows, rd);
        SumsSnoc(EntriesOf(cats, rows, rd), Entry(rows, rd, c));
      }
    }
  }

  /** One more row adds one to the listed counts exactly when its url is new. */
  lemma CountsGrowth(rows: seq<HistoryRow>, rd: Reading)
    requires rows != []
    ensures SumAppCounts(EntriesOf(Categories(rows, rd), rows, rd)) ==
      SumAppCounts(EntriesOf(Categories(rows[..|rows| - 1], rd), rows[..|rows| - 1], rd))
        + (if rows[|rows| - 1].appUrl in AllUrls(rows[..|rows| - 1]) then 0 else 1)
  {
    var init := rows[..|rows| - 1];
    var r := rows[|rows| - 1];
    var cats := Categories(init, rd);
    var c := RowCategory(rd, r);
    CategoriesSpec(init, rd);
    Unsnoc(rows, rd);
    UnsnocCategories(rows, rd);
    AppCountsShift(cats, init, rows, rd, c, r.appUrl);
    UrlsInSpec(init, rd, c, r.appUrl);
    if c !in cats {
      AbsentCategory(init, rd, c);
      EntriesSnoc(cats, c, rows, rd);
      SumsSnoc(EntriesOf(cats, rows, rd), Entry(rows, rd, c));
      assert UrlsIn(rows, rd, c) == {r.appUrl};
    }
  }

  /** One more row adds one to the distinct urls exactly when its url is new. */
  lemma AllUrlsGrowth(rows: seq<HistoryRow>)
    requires rows != []
    ensures |AllUrls(rows)| == |AllUrls(rows[..|rows| - 1])| + (if rows[|rows| - 1].appUrl in AllUrls(rows[..|rows| - 1]) then 0 else 1)
  {
    var before := AllUrls(rows[..|rows| - 1]);
    var u := rows[|rows| - 1].appUrl;
    if u !in before {
      assert |before + {u}| == |before| + 1;
    } else {
      assert before + {u} == before;
    }
  }

  /**
   * The per-category url counts add up to the number of distinct urls:
   * every url resolves to one category, so no url is counted twice.
   */
  lemma {:induction false} AppCountsAddUp(rows: seq<HistoryRow>, rd: Reading)
    ensures SumAppCounts(EntriesOf(Categories(rows, rd), rows, rd)) == |AllUrls(rows)|
  {
    if rows != [] {
      AppCountsAddUp(rows[..|rows| - 1], rd);
      CountsGrowth(rows, rd);
      AllUrlsGrowth(rows);
    }
  }

  /* ---------------- Step 4 and the count loop, as methods ---------------- */

  /** Map key `c` holds category `c`'s figures for `rows` so far, with the given app count. */
  ghost predicate HoldsFigures(categoryStatsMap: map<string, CategoryStats>, cats: seq<string>, rows: seq<HistoryRow>, rd: Reading) {
    && (forall c :: c in categoryStatsMap <==> c in cats)
    && (forall c :: c in categoryStatsMap ==>
          && categoryStatsMap[c].category == c
          && categoryStatsMap[c].totalTokens == TokensIn(rows, rd, c)
          && categoryStatsMap[c].apps == UrlsIn(rows, rd, c))
  }

  /** A new, empty entry for a category no row has reached yet keeps the figures right. */
  lemma HoldsAfterNew(m0: map<string, CategoryStats>, order0: seq<string>, rows: seq<HistoryRow>, rd: Reading, c0: string)
    requires HoldsFigures(m0, order0, rows, rd)
    requires c0 !in m0
    requires TokensIn(rows, rd, c0) == 0 && UrlsIn(rows, rd, c0) == {}
    ensures HoldsFigures(m0[c0 := CategoryStats(c0, 0, 0, {})], order0 + [c0], rows, rd)
  {
  }

  /** Adding the last row's amount and url to its category's entry gives the figures of all the rows. */
  lemma HoldsAfterRow(m0: map<string, CategoryStats>, order0: seq<string>, rows: seq<HistoryRow>, rd: Reading,
                      c: string, stats: CategoryStats, t: int, u: string)
    requires rows != []
    requires HoldsFigures(m0, order0, rows[..|rows| - 1], rd)
    requires c == RowCategory(rd, rows[|rows| - 1]) && t == rd.amount(rows[|rows| - 1].tokensUsed) && u == rows[|rows| - 1].appUrl
    requires c in m0 && stats == m0[c]
    ensures HoldsFigures(m0[c := stats.(totalTokens := stats.totalTokens + t, apps := stats.apps + {u})], order0, rows, rd)
  {
    UnsnocCategories(rows, rd);
  }

  /** One pass of the aggregation loop: `usage` joins its category's entry, creating it if absent. */
  method AddRow(m0: map<string, CategoryStats>, order0: seq<string>, total0: int,
                urlToCategoryMap: map<string, string>, usage: HistoryRow, ghost next: seq<HistoryRow>, ghost rd: Reading)
    returns (categoryStatsMap: map<string, CategoryStats>, order: seq<string>, totalTokensAllCategories: int)
    requires ReadsAs(urlToCategoryMap, rd)
    requires next != [] && next[|next| - 1] == usage
    requires order0 == Categories(next[..|next| - 1], rd)
    requires HoldsFigures(m0, order0, next[..|next| - 1], rd)
    requires total0 == SumTokens(next[..|next| - 1], rd)
    ensures order == Categories(next, rd)
    ensures HoldsFigures(categoryStatsMap, order, next, rd)
    ensures totalTokensAllCategories == SumTokens(next, rd)
  {
    ghost var done := next[..|next| - 1];
    Unsnoc(next, rd);
    var category := if usage.appUrl in urlToCategoryMap && urlToCategoryMap[usage.appUrl] != ""
                    then urlToCategoryMap[usage.appUrl] else "Others";
    assert category == RowCategory(rd, usage);
    var tokens := ParseTokenString(usage.tokensUsed);
    totalTokensAllCategories := total0 + tokens;
    categoryStatsMap, order := m0, order0;
    if category !in categoryStatsMap {
      AbsentCategory(done, rd, category);
      HoldsAfterNew(categoryStatsMap, order, done, rd, category);
      categoryStatsMap := categoryStatsMap[category := CategoryStats(category, 0, 0, {})];
      order := order + [category];
    }
    var stats := categoryStatsMap[category];
    HoldsAfterRow(categoryStatsMap, order, next, rd, category, stats, tokens, usage.appUrl);
    categoryStatsMap := categoryStatsMap[category := stats.(totalTokens := stats.totalTokens + tokens, apps := stats.apps + {usage.appUrl})];
  }

  /** The aggregation loop over the batch's rows. */
  method AggregateByCategory(usageHistory: seq<HistoryRow>, urlToCategoryMap: map<string, string>, ghost rd: Reading)
    returns (categoryStatsMap: map<string, CategoryStats>, order: seq<string>, totalTokensAllCategories: int)
    requires ReadsAs(urlToCategoryMap, rd)
    ensures order == Categories(usageHistory, rd)
    ensures HoldsFigures(categoryStatsMap, order, usageHistory, rd)
    ensures totalTokensAllCategories == SumTokens(usageHistory, rd)
  {
    categoryStatsMap, order, totalTokensAllCategories := map[], [], 0;
    for k := 0 to |usageHistory|
      invariant order == Categories(usageHistory[..k], rd)
      invariant HoldsFigures(categoryStatsMap, order, usageHistory[..k], rd)
      invariant totalTokensAllCategories == SumTokens(usageHistory[..k], rd)
    {
      assert usageHistory[..k + 1][..k] == usageHistory[..k];
      categoryStatsMap, order, totalTokensAllCategories :=
        AddRow(categoryStatsMap, order, totalTokensAllCategories, urlToCategoryMap, usageHistory[k], usageHistory[..k + 1], rd);
    }
    assert usageHistory[..|usageHistory|] == usageHistory;
  }

  /** "Update app counts": each entry's count becomes the size of its url set, in key order. */
  method FillAppCounts(m0: map<string, CategoryStats>, order: seq<string>, ghost rows: seq<HistoryRow>, ghost rd: Reading)
    returns (categoryStatsMap: map<string, CategoryStats>)
    requires Distinct(order)
    requires HoldsFigures(m0, order, rows, rd)
    ensures forall c :: c in categoryStatsMap <==> c in order
    ensures forall c :: c in categoryStatsMap ==> categoryStatsMap[c] == Entry(rows, rd, c)
  {
    categoryStatsMap := m0;
    for i := 0 to |order|
      invariant HoldsFigures(categoryStatsMap, order, rows, rd)
      invariant forall c :: c in categoryStatsMap && c in order[..i] ==> categoryStatsMap[c] == Entry(rows, rd, c)
    {
      var c := order[i];
      var stats := categoryStatsMap[c];
      categoryStatsMap := categoryStatsMap[c := stats.(appCount := |stats.apps|)];
      assert order[..i + 1] == order[..i] + [c];
    }
    assert order[..|order|] == order;
  }

  /** The count loop, then the map's values in key order: the entries of the listed categories. */
  method CountedValues(m0: map<string, CategoryStats>, order: seq<string>, ghost rows: seq<HistoryRow>, ghost rd: Reading)
    returns (values: seq<CategoryStats>)
    requires Distinct(order)
    requires HoldsFigures(m0, order, rows, rd)
    ensures values == EntriesOf(order, rows, rd)
  {
    var categoryStatsMap := FillAppCounts(m0, order, rows, rd);
    values := ValuesInOrder(categoryStatsMap, order);
    EntriesOfPointwise(order, rows, rd);
  }

  /** The values of the category map, in key insertion order. */
  function ValuesInOrder(m: map<string, CategoryStats>, order: seq<string>): seq<CategoryStats>
    requires forall i :: 0 <= i < |order| ==> order[i] in m
  {
    seq(|order|, i requires 0 <= i < |order| => m[order[i]])
  }

  /* ---------------- Step 5: the sort ---------------- */

  /** Insert before the first entry whose total is not larger, so an earlier entry stays ahead on ties. */
  function InsertByTotal(x: CategoryStats, sorted: seq<CategoryStats>): seq<CategoryStats> {
    if sorted == [] || x.totalTokens >= sorted[0].totalTokens then [x] + sorted
    else [sorted[0]] + InsertByTotal(x, sorted[1..])
  }

  /** A stable sort by descending total, as a comparator subtracting the totals gives. */
  function SortByTotal(stats: seq<CategoryStats>): seq<CategoryStats> {
    if stats == [] then [] else InsertByTotal(stats[0], SortByTotal(stats[1..]))
  }

  predicate SortedDesc(stats: seq<CategoryStats>) {
    forall i, j :: 0 <= i < j < |stats| ==> stats[i].totalTokens >= stats[j].totalTokens
  }

  /** Inserting keeps the entries, their sums, and puts `x` or the old head first. */
  lemma {:induction false} InsertByTotalKeeps(x: CategoryStats, sorted: seq<CategoryStats>)
    ensures multiset(InsertByTotal(x, sorted)) == multiset(sorted) + multiset{x}
    ensures |InsertByTotal(x, sorted)| == |sorted| + 1
    ensures SumTotals(InsertByTotal(x, sorted)) == SumTotals(sorted) + x.totalTokens
    ensures SumAppCounts(InsertByTotal(x, sorted)) == SumAppCounts(sorted) + x.appCount
    ensures InsertByTotal(x, sorted)[0] == x || InsertByTotal(x, sorted)[0] == sorted[0]
  {
    SumsOfCons(x, sorted);
    if sorted != [] && x.totalTokens < sorted[0].totalTokens {
      var tail := sorted[1..];
      InsertByTotalKeeps(x, tail);
      SumsOfCons(sorted[0], InsertByTotal(x, tail));
      SumsOfCons(sorted[0], tail);
      assert sorted == [sorted[0]] + tail;
    }
  }

  /** Inserting into a non-increasing sequence keeps it non-increasing. */
  lemma {:induction false} InsertByTotalSorted(x: CategoryStats, sorted: seq<CategoryStats>)
    requires SortedDesc(sorted)
    ensures SortedDesc(InsertByTotal(x, sorted))
  {
    InsertByTotalKeeps(x, sorted);
    var r := InsertByTotal(x, sorted);
    if sorted != [] && x.totalTokens < sorted[0].totalTokens {
      var tail := sorted[1..];
      assert SortedDesc(tail) by {
        forall i, j | 0 <= i < j < |tail| ensures tail[i].totalTokens >= tail[j].totalTokens {
          assert tail[i] == sorted[i + 1] && tail[j] == sorted[j + 1];
        }
      }
      InsertByTotalSorted(x, tail);
      InsertByTotalKeeps(x, tail);
      var rest := InsertByTotal(x, tail);
      assert r == [sorted[0]] + rest;
      assert sorted[0].totalTokens >= rest[0].totalTokens by {
        if rest[0] != x {
          assert rest[0] == sorted[1];
        }
      }
      forall i, j | 0 <= i < j < |r| ensures r[i].totalTokens >= r[j].totalTokens {
        assert r[j] == rest[j - 1];
        if i > 0 {
          assert r[i] == rest[i - 1];
        } else if j > 1 {
          assert rest[0].totalTokens >= rest[j - 1].totalTokens;
        }
      }
    } else {
      assert r == [x] + sorted;
      forall i, j | 0 <= i < j < |r| ensures r[i].totalTokens >= r[j].totalTokens {
        assert r[j] == sorted[j - 1];
        if i > 0 {
          assert r[i] == sorted[i - 1];
        } else if j > 1 {
          assert sorted[0].totalTokens >= sorted[j - 1].totalTokens;
        }
      }
    }
  }

  /** The sort yields a non-increasing permutation of its input with the same sums. */
  lemma {:induction false} SortByTotalSpec(stats: seq<CategoryStats>)
    ensures SortedDesc(SortByTotal(stats))
    ensures multiset(SortByTotal(stats)) == multiset(stats)
    ensures |SortByTotal(stats)| == |stats|
    ensures SumTotals(SortByTotal(stats)) == SumTotals(stats)
    ensures SumAppCounts(SortByTotal(stats)) == SumAppCounts(stats)
  {
    if stats != [] {
      SortByTotalSpec(stats[1..]);
      InsertByTotalKeeps(stats[0], SortByTotal(stats[1..]));
      InsertByTotalSorted(stats[0], SortByTotal(stats[1..]));
      SumsOfCons(stats[0], stats[1..]);
      assert stats == [stats[0]] + stats[1..];
    }
  }

  /** The sums read from the front. */
  lemma {:induction false} SumsOfCons(x: CategoryStats, s: seq<CategoryStats>)
    ensures SumTotals([x] + s) == x.totalTokens + SumTotals(s)
    ensures SumAppCounts([x] + s) == x.appCount + SumAppCounts(s)
    decreases |s|
  {
    if s != [] {
      var init := s[..|s| - 1];
      SumsOfCons(x, init);
      assert ([x] + s)[..|[x] + s| - 1] == [x] + init;
    }
  }

  /* ---------------- The command ---------------- */

  /** The figures for the rows of a batch. */
  function Figures(rows: seq<HistoryRow>, rd: Reading): seq<CategoryStats> {
    SortByTotal(EntriesOf(Categories(rows, rd), rows, rd))
  }

  /** Steps 3 to 5 for the rows of one batch: the sorted figures and the overall total. */
  method Tabulate(usageHistory: seq<HistoryRow>, allApps: seq<AppRow>) returns (sortedStats: seq<CategoryStats>, totalTokensAllCategories: int)
    ensures sortedStats == Figures(usageHistory, StoreReading(allApps))
    ensures totalTokensAllCategories == SumTokens(usageHistory, StoreReading(allApps))
  {
    ghost var rd := StoreReading(allApps);
    var urlToCategoryMap := BuildCategoryMap(allApps);
    StoreReadingMatches(urlToCategoryMap, allApps);
    var categoryStatsMap, order, total := AggregateByCategory(usageHistory, urlToCategoryMap, rd);
    assert Distinct(order) by {
      CategoriesSpec(usageHistory, rd);
    }
    var values := CountedValues(categoryStatsMap, order, usageHistory, rd);
    sortedStats := SortByTotal(values);
    totalTokensAllCategories := total;
  }

  /** The sorted figures are non-increasing, their totals add up to the overall total, and their counts to the distinct urls. */
  lemma FiguresAddUp(rows: seq<HistoryRow>, rd: Reading)
    ensures SortedDesc(Figures(rows, rd))
    ensures multiset(Figures(rows, rd)) == multiset(EntriesOf(Categories(rows, rd), rows, rd))
    ensures SumTotals(Figures(rows, rd)) == SumTokens(rows, rd)
    ensures SumAppCounts(Figures(rows, rd)) == |AllUrls(rows)|
  {
    SortByTotalSpec(EntriesOf(Categories(rows, rd), rows, rd));
    TotalsAddUp(rows, rd);
    AppCountsAddUp(rows, rd);
  }

  /** An entry is listed exactly when its category is. */
  lemma EntriesOfMembers(cats: seq<string>, rows: seq<HistoryRow>, rd: Reading)
    ensures forall e :: e in EntriesOf(cats, rows, rd) <==> exists c :: c in cats && e == Entry(rows, rd, c)
  {
    var entries := EntriesOf(cats, rows, rd);
    EntriesOfPointwise(cats, rows, rd);
    forall e | e in entries ensures exists c :: c in cats && e == Entry(rows, rd, c) {
      var i :| 0 <= i < |entries| && entries[i] == e;
      assert e == Entry(rows, rd, cats[i]);
    }
    forall c | c in cats ensures Entry(rows, rd, c) in entries {
      var i :| 0 <= i < |cats| && cats[i] == c;
      assert entries[i] == Entry(rows, rd, c);
    }
  }

  /** The figures are the entries of the categories met, one per category. */
  lemma FiguresAreEntries(rows: seq<HistoryRow>, rd: Reading)
    ensures forall e :: e in Figures(rows, rd) <==> exists c :: c in Categories(rows, rd) && e == Entry(rows, rd, c)
  {
    var entries := EntriesOf(Categories(rows, rd), rows, rd);
    SortByTotalSpec(entries);
    EntriesOfMembers(Categories(rows, rd), rows, rd);
    forall e ensures e in Figures(rows, rd) <==> e in entries {
      assert e in Figures(rows, rd) <==> e in multiset(Figures(rows, rd));
      assert e in entries <==> e in multiset(entries);
    }
  }

  /** `handleStatsCommand` without rendering: it reads the store and changes nothing. */
  method HandleStatsCommand(db: Database) returns (report: StatsReport)
    ensures LatestBatchId(db.batches).None? ==> report == NoBatches
    ensures LatestBatchId(db.batches).Some? && RowsOfBatch(db.history, LatestBatchId(db.batches).value) == [] ==>
      report == NoUsage(LatestBatchId(db.batches).value)
    ensures LatestBatchId(db.batches).Some? && RowsOfBatch(db.history, LatestBatchId(db.batches).value) != [] ==>
      var rows := RowsOfBatch(db.history, LatestBatchId(db.batches).value);
      report == Report(LatestBatchId(db.batches).value, Figures(rows, StoreReading(db.apps)), SumTokens(rows, StoreReading(db.apps)), |AllUrls(rows)|)
    ensures report.Report? ==>
      && SortedDesc(report.sortedStats)
      && SumTotals(report.sortedStats) == report.totalTokensAllCategories
      && SumAppCounts(report.sortedStats) == report.totalAppCount
  {
    var latestBatch := LatestBatchId(db.batches);
    if latestBatch.None? {
      return NoBatches;
    }
    var batchId := latestBatch.value;
    var usageHistory := RowsOfBatch(db.history, batchId);
    if |usageHistory| == 0 {
      return NoUsage(batchId);
    }
    var sortedStats, totalTokensAllCategories := Tabulate(usageHistory, db.apps);
    FiguresAddUp(usageHistory, StoreReading(db.apps));
    report := Report(batchId, sortedStats, totalTokensAllCategories, SumAppCounts(sortedStats));
  }
}
