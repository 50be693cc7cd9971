/**
 * The `batch-collect` command: seed the model catalog, open one collection
 * batch, collect each model's usage listing in chunks of five, keep the
 * first entry seen for each url, insert the urls not yet stored into `apps`,
 * and write one history row per (model, listed entry) tagged with the batch.
 *
 * The browser extraction is the input `fetch`: `fetch(modelName)` is the
 * extracted listing, or None when collecting that model threw.
 */
module BatchCollect {
  import opened Wrappers
  import opened Usage
  import opened Store
  import opened Catalog

  /* ---------------- The catalog and seeding ---------------- */

  /** Some row of the models table has this model name. */
  predicate HasModel(models: seq<ModelRow>, name: string) {
    exists i :: 0 <= i < |models| && models[i].modelName == name
  }

  /** The number of model rows with a given name. */
  function NamedCount(models: seq<ModelRow>, name: string): nat {
    if models == [] then 0
    else NamedCount(models[..|models| - 1], name) + (if models[|models| - 1].modelName == name then 1 else 0)
  }

  /** The `models` table and its id sequence. */
  datatype ModelTable = ModelTable(rows: seq<ModelRow>, nextId: nat)

  /** Seeding as a function: each catalog entry not yet present is inserted, in catalog order. */
  function Seeded(t: ModelTable, catalog: seq<CatalogEntry>): ModelTable
    decreases |catalog|
  {
    if catalog == [] then t
    else if HasModel(t.rows, catalog[0].modelName) then Seeded(t, catalog[1..])
    else Seeded(ModelTable(t.rows + [ModelRow(t.nextId, catalog[0].displayName, catalog[0].modelName)], t.nextId + 1),
                catalog[1..])
  }

  /** Seeding only appends, with consecutive fresh ids, rows taken from the catalog that were absent before. */
  lemma {:induction false} SeededAppends(t: ModelTable, catalog: seq<CatalogEntry>)
    ensures |Seeded(t, catalog).rows| >= |t.rows|
    ensures Seeded(t, catalog).rows[..|t.rows|] == t.rows
    ensures Seeded(t, catalog).nextId == t.nextId + (|Seeded(t, catalog).rows| - |t.rows|)
    ensures forall k :: |t.rows| <= k < |Seeded(t, catalog).rows| ==>
      && Seeded(t, catalog).rows[k].id == t.nextId + (k - |t.rows|)
      && !HasModel(t.rows, Seeded(t, catalog).rows[k].modelName)
      && exists j :: 0 <= j < |catalog|
           && Seeded(t, catalog).rows[k].displayName == catalog[j].displayName
           && Seeded(t, catalog).rows[k].modelName == catalog[j].modelName
    decreases |catalog|
  {
    if catalog != [] {
      var e := catalog[0];
      if HasModel(t.rows, e.modelName) {
        SeededAppends(t, catalog[1..]);
        var r := Seeded(t, catalog);
        forall k | |t.rows| <= k < |r.rows|
          ensures exists j :: (0 <= j < |catalog|
            && r.rows[k].displayName == catalog[j].displayName && r.rows[k].modelName == catalog[j].modelName)
        {
          var j :| 0 <= j < |catalog[1..]|
            && r.rows[k].displayName == catalog[1..][j].displayName && r.rows[k].modelName == catalog[1..][j].modelName;
          assert catalog[1..][j] == catalog[j + 1];
        }
      } else {
        var row := ModelRow(t.nextId, e.displayName, e.modelName);
        var t' := ModelTable(t.rows + [row], t.nextId + 1);
        SeededAppends(t', catalog[1..]);
        var r := Seeded(t, catalog);
        assert r == Seeded(t', catalog[1..]);
        assert r.rows[..|t'.rows|] == t'.rows;
        assert r.rows[..|t.rows|] == t'.rows[..|t.rows|];
        forall k | |t.rows| <= k < |r.rows|
          ensures r.rows[k].id == t.nextId + (k - |t.rows|)
          ensures !HasModel(t.rows, r.rows[k].modelName)
          ensures exists j :: (0 <= j < |catalog|
            && r.rows[k].displayName == catalog[j].displayName && r.rows[k].modelName == catalog[j].modelName)
        {
          if k == |t.rows| {
            assert r.rows[k] == t'.rows[k] == row;
          } else {
            assert !HasModel(t'.rows, r.rows[k].modelName);
            assert forall i :: 0 <= i < |t.rows| ==> t.rows[i] == t'.rows[i];
            var j :| 0 <= j < |catalog[1..]|
              && r.rows[k].displayName == catalog[1..][j].displayName && r.rows[k].modelName == catalog[1..][j].modelName;
            assert catalog[1..][j] == catalog[j + 1];
          }
        }
      }
    }
  }

  /** After seeding, every catalog model name is present. */
  lemma {:induction false} SeededCovers(t: ModelTable, catalog: seq<CatalogEntry>)
    ensures forall j :: 0 <= j < |catalog| ==> HasModel(Seeded(t, catalog).rows, catalog[j].modelName)
    decreases |catalog|
  {
    if catalog != [] {
      var e := catalog[0];
      var t' := if HasModel(t.rows, e.modelName) then t
                else ModelTable(t.rows + [ModelRow(t.nextId, e.displayName, e.modelName)], t.nextId + 1);
      assert Seeded(t, catalog) == Seeded(t', catalog[1..]);
      assert HasModel(t'.rows, e.modelName) by {
        if !HasModel(t.rows, e.modelName) {
          assert t'.rows[|t.rows|].modelName == e.modelName;
        }
      }
      SeededCovers(t', catalog[1..]);
      SeededAppends(t', catalog[1..]);
      var r := Seeded(t', catalog[1..]);
      var i :| 0 <= i < |t'.rows| && t'.rows[i].modelName == e.modelName;
      assert r.rows[i] == t'.rows[i];
      forall j | 1 <= j < |catalog|
        ensures HasModel(r.rows, catalog[j].modelName)
      {
        assert catalog[1..][j - 1] == catalog[j];
      }
    }
  }

  /** Seeding keeps model names unique. */
  lemma {:induction false} SeededUnique(t: ModelTable, catalog: seq<CatalogEntry>)
    requires ModelNamesUnique(t.rows)
    ensures ModelNamesUnique(Seeded(t, catalog).rows)
    decreases |catalog|
  {
    if catalog != [] {
      var e := catalog[0];
      if HasModel(t.rows, e.modelName) {
        SeededUnique(t, catalog[1..]);
      } else {
        var t' := ModelTable(t.rows + [ModelRow(t.nextId, e.displayName, e.modelName)], t.nextId + 1);
        assert ModelNamesUnique(t'.rows) by {
          forall i, j | 0 <= i < j < |t'.rows|
            ensures t'.rows[i].modelName != t'.rows[j].modelName
          {
            if j == |t.rows| {
              assert t'.rows[i] == t.rows[i];
            }
          }
        }
        SeededUnique(t', catalog[1..]);
      }
    }
  }

  /** Seeding a table that already holds every catalog name changes nothing. */
  lemma {:induction false} SeededStable(t: ModelTable, catalog: seq<CatalogEntry>)
    requires forall j :: 0 <= j < |catalog| ==> HasModel(t.rows, catalog[j].modelName)
    ensures Seeded(t, catalog) == t
    decreases |catalog|
  {
    if catalog != [] {
      assert HasModel(t.rows, catalog[0].modelName);
      forall j | 0 <= j < |catalog[1..]|
        ensures HasModel(t.rows, catalog[1..][j].modelName)
      {
        assert catalog[1..][j] == catalog[j + 1];
      }
      SeededStable(t, catalog[1..]);
    }
  }

  /** A second seeding run changes nothing. */
  lemma SeededIdempotent(t: ModelTable, catalog: seq<CatalogEntry>)
    ensures Seeded(Seeded(t, catalog), catalog) == Seeded(t, catalog)
  {
    SeededCovers(t, catalog);
    SeededStable(Seeded(t, catalog), catalog);
  }

  lemma {:induction false} UniqueCount(models: seq<ModelRow>, name: string)
    requires ModelNamesUnique(models)
    ensures NamedCount(models, name) == if HasModel(models, name) then 1 else 0
  {
    if models != [] {
      var init := models[..|models| - 1];
      assert ModelNamesUnique(init) by {
        forall i, j | 0 <= i < j < |init| ensures init[i].modelName != init[j].modelName {
          assert init[i] == models[i] && init[j] == models[j];
        }
      }
      UniqueCount(init, name);
      if models[|models| - 1].modelName == name {
        assert !HasModel(init, name) by {
          forall i | 0 <= i < |init| ensures init[i].modelName != name {
            assert init[i] == models[i];
          }
        }
      } else {
        assert HasModel(models, name) == HasModel(init, name) by {
          if HasModel(models, name) {
            var i :| 0 <= i < |models| && models[i].modelName == name;
            assert init[i] == models[i];
          }
          if HasModel(init, name) {
            var i :| 0 <= i < |init| && init[i].modelName == name;
            assert models[i] == init[i];
          }
        }
      }
    }
  }

  /** After seeding a table with unique names, every catalog name occurs exactly once. */
  lemma SeededExactlyOnce(t: ModelTable, catalog: seq<CatalogEntry>)
    requires ModelNamesUnique(t.rows)
    ensures forall j :: 0 <= j < |catalog| ==> NamedCount(Seeded(t, catalog).rows, catalog[j].modelName) == 1
  {
    SeededCovers(t, catalog);
    SeededUnique(t, catalog);
    forall j | 0 <= j < |catalog|
      ensures NamedCount(Seeded(t, catalog).rows, catalog[j].modelName) == 1
    {
      UniqueCount(Seeded(t, catalog).rows, catalog[j].modelName);
    }
  }

  lemma SeededStep(t: ModelTable, catalog: seq<CatalogEntry>, k: nat)
    requires k < |catalog|
    ensures Seeded(t, catalog[k..]) ==
      if HasModel(t.rows, catalog[k].modelName) then Seeded(t, catalog[k + 1..])
      else Seeded(ModelTable(t.rows + [ModelRow(t.nextId, catalog[k].displayName, catalog[k].modelName)], t.nextId + 1),
                  catalog[k + 1..])
  {
    assert catalog[k..][1..] == catalog[k + 1..];
  }

  /** The loop of `seedModels`: for each catalog entry, insert it when no row has its model name. */
  method SeedCatalog(db: Database, catalog: seq<CatalogEntry>)
    requires db.Valid()
    modifies db`models, db`nextModelId
    ensures db.Valid()
    ensures ModelTable(db.models, db.nextModelId) == Seeded(ModelTable(old(db.models), old(db.nextModelId)), catalog)
  {
    for k := 0 to |catalog|
      invariant db.Valid()
      invariant Seeded(ModelTable(db.models, db.nextModelId), catalog[k..])
             == Seeded(ModelTable(old(db.models), old(db.nextModelId)), catalog)
    {
      var model := catalog[k];
      SeededStep(ModelTable(db.models, db.nextModelId), catalog, k);
      var existing := HasModel(db.models, model.modelName);
      if !existing {
        db.InsertModel(model.displayName, model.modelName);
      }
    }
  }

  /** `seedModels`: seeding from the predefined catalog. */
  method SeedModels(db: Database)
    requires db.Valid()
    modifies db`models, db`nextModelId
    ensures db.Valid()
    ensures ModelTable(db.models, db.nextModelId) == Seeded(ModelTable(old(db.models), old(db.nextModelId)), PredefinedModels)
  {
    SeedCatalog(db, PredefinedModels);
  }

  /* ---------------- Chunked collection ---------------- */

  /** One element of `usageResults`. */
  datatype UsageResult = UsageResult(modelId: nat, modelName: string, apps: seq<ScrapedApp>)

  /** One task of a chunk: the converted listing, or no apps when collecting threw. */
  function CollectTask(model: ModelRow, fetch: string -> Option<seq<ScrapedApp>>): (r: UsageResult)
    ensures r.modelId == model.id && r.modelName == model.modelName
    ensures fetch(model.modelName).None? ==> r.apps == []
    ensures fetch(model.modelName).Some? ==> r.apps == WithConvertedTokens(fetch(model.modelName).value)
  {
    match fetch(model.modelName)
    case None => UsageResult(model.id, model.modelName, [])
    case Some(raw) => UsageResult(model.id, model.modelName, WithConvertedTokens(raw))
  }

  /** The collection outcome as a plain map over the models, in order. */
  function UsageOf(models: seq<ModelRow>, fetch: string -> Option<seq<ScrapedApp>>): seq<UsageResult> {
    if models == [] then [] else UsageOf(models[..|models| - 1], fetch) + [CollectTask(models[|models| - 1], fetch)]
  }

  /**
   * The plain map yields one result per model, in model order, each its own
   * model's task outcome: a failed model has no apps and does not affect the others.
   */
  lemma {:induction false} UsageOfPointwise(models: seq<ModelRow>, fetch: string -> Option<seq<ScrapedApp>>)
    ensures |UsageOf(models, fetch)| == |models|
    ensures forall k :: 0 <= k < |models| ==> UsageOf(models, fetch)[k] == CollectTask(models[k], fetch)
  {
    if models != [] {
      UsageOfPointwise(models[..|models| - 1], fetch);
    }
  }

  const ConcurrencyLimit: nat := 5

  /** The chunk loop: slices of five models, each mapped task by task, pushed in order. */
  method CollectUsageResults(allModels: seq<ModelRow>, fetch: string -> Option<seq<ScrapedApp>>)
    returns (usageResults: seq<UsageResult>)
    ensures |usageResults| == |allModels|
    ensures forall k :: 0 <= k < |allModels| ==> usageResults[k] == CollectTask(allModels[k], fetch)
  {
    usageResults := [];
    var i := 0;
    while i < |allModels|
      invariant |usageResults| == if i < |allModels| then i else |allModels|
      invariant forall k :: 0 <= k < |usageResults| ==> usageResults[k] == CollectTask(allModels[k], fetch)
    {
      var end := if i + ConcurrencyLimit < |allModels| then i + ConcurrencyLimit else |allModels|;
      var batch := allModels[i..end];
      var batchResults := RunChunk(batch, fetch);
      usageResults := usageResults + batchResults;
      i := i + ConcurrencyLimit;
    }
  }

  /** One chunk of concurrent collections, run here as a sequential map in chunk order. */
  method RunChunk(batch: seq<ModelRow>, fetch: string -> Option<seq<ScrapedApp>>) returns (batchResults: seq<UsageResult>)
    ensures |batchResults| == |batch|
    ensures forall k :: 0 <= k < |batch| ==> batchResults[k] == CollectTask(batch[k], fetch)
  {
    batchResults := [];
    for j := 0 to |batch|
      invariant |batchResults| == j
      invariant forall k :: 0 <= k < j ==> batchResults[k] == CollectTask(batch[k], fetch)
    {
      batchResults := batchResults + [CollectTask(batch[j], fetch)];
    }
  }

  /** The chunked collection equals the plain map. */
  lemma ChunkedIsPlainMap(models: seq<ModelRow>, fetch: string -> Option<seq<ScrapedApp>>, results: seq<UsageResult>)
    requires |results| == |models|
    requires forall k :: 0 <= k < |models| ==> results[k] == CollectTask(models[k], fetch)
    ensures results == UsageOf(models, fetch)
  {
    UsageOfPointwise(models, fetch);
  }

  /* ---------------- First-seen dedup by url ---------------- */

  /** All listed entries, result after result. */
  function Flatten(results: seq<UsageResult>): seq<ScrapedApp> {
    if results == [] then [] else Flatten(results[..|results| - 1]) + results[|results| - 1].apps
  }

  predicate HasUrl(s: seq<ScrapedApp>, url: string) {
    exists i :: 0 <= i < |s| && s[i].url == url
  }

  /** The dedup map's values in insertion order: the first entry seen for each non-empty url. */
  function FirstSeen(entries: seq<ScrapedApp>): seq<ScrapedApp> {
    if entries == [] then []
    else
      var d := FirstSeen(entries[..|entries| - 1]);
      var app := entries[|entries| - 1];
      if app.url != "" && !HasUrl(d, app.url) then d + [app] else d
  }

  lemma FirstSeenSnoc(entries: seq<ScrapedApp>, app: ScrapedApp)
    ensures FirstSeen(entries + [app]) ==
      if app.url != "" && !HasUrl(FirstSeen(entries), app.url) then FirstSeen(entries) + [app]
      else FirstSeen(entries)
  {
    assert (entries + [app])[..|entries|] == entries;
  }

  lemma FlattenSnoc(results: seq<UsageResult>, r: UsageResult)
    ensures Flatten(results + [r]) == Flatten(results) + r.apps
  {
    assert (results + [r])[..|results|] == results;
  }

  /** Every kept entry is an entry seen with a non-empty url, and the kept urls are distinct. */
  lemma {:induction false} FirstSeenDistinct(entries: seq<ScrapedApp>)
    ensures forall i :: 0 <= i < |FirstSeen(entries)| ==>
      FirstSeen(entries)[i] in entries && FirstSeen(entries)[i].url != ""
    ensures forall i, j :: 0 <= i < j < |FirstSeen(entries)| ==> FirstSeen(entries)[i].url != FirstSeen(entries)[j].url
  {
    if entries != [] {
      var init := entries[..|entries| - 1];
      FirstSeenDistinct(init);
      var d := FirstSeen(init);
      forall i | 0 <= i < |d| ensures d[i] in entries {
        var k :| 0 <= k < |init| && init[k] == d[i];
        assert entries[k] == init[k];
      }
    }
  }

  /** A url is kept exactly when it is non-empty and some entry has it. */
  lemma {:induction false} FirstSeenCovers(entries: seq<ScrapedApp>, url: string)
    ensures HasUrl(FirstSeen(entries), url) <==> url != "" && HasUrl(entries, url)
  {
    if entries != [] {
      var init := entries[..|entries| - 1];
      FirstSeenCovers(init, url);
      FirstSeenDistinct(init);
      var d := FirstSeen(init);
      var app := entries[|entries| - 1];
      assert HasUrl(entries, url) <==> HasUrl(init, url) || app.url == url by {
        if HasUrl(entries, url) && app.url != url {
          var k :| 0 <= k < |entries| && entries[k].url == url;
          assert init[k] == entries[k];
        }
        if HasUrl(init, url) {
          var k :| 0 <= k < |init| && init[k].url == url;
          assert entries[k] == init[k];
        }
      }
      if app.url != "" && !HasUrl(d, app.url) {
        assert (d + [app])[|d|] == app;
        if HasUrl(d + [app], url) && app.url != url {
          var k :| 0 <= k < |d + [app]| && (d + [app])[k].url == url;
          assert d[k] == (d + [app])[k];
        }
        if HasUrl(d, url) {
          var k :| 0 <= k < |d| && d[k].url == url;
          assert (d + [app])[k] == d[k];
        }
      }
    }
  }

  /** No entry before position `k` has the url of entry `k`. */
  predicate FirstWithUrl(entries: seq<ScrapedApp>, k: nat)
    requires k < |entries|
  {
    forall j :: 0 <= j < k ==> entries[j].url != entries[k].url
  }

  /** Each kept entry is the first entry with its url: no earlier entry has that url. */
  lemma {:induction false} FirstSeenIsFirst(entries: seq<ScrapedApp>, i: nat)
    requires i < |FirstSeen(entries)|
    ensures exists k: nat :: k < |entries| && entries[k] == FirstSeen(entries)[i] && FirstWithUrl(entries, k)
  {
    var init := entries[..|entries| - 1];
    var d := FirstSeen(init);
    var app := entries[|entries| - 1];
    if i < |d| {
      FirstSeenIsFirst(init, i);
      var k: nat :| k < |init| && init[k] == d[i] && FirstWithUrl(init, k);
      assert entries[k] == init[k];
      assert forall j :: 0 <= j < k ==> entries[j] == init[j];
      assert FirstWithUrl(entries, k);
    } else {
      var k := |entries| - 1;
      assert FirstSeen(entries)[i] == app;
      FirstSeenCovers(init, app.url);
      forall j | 0 <= j < k ensures entries[j].url != entries[k].url {
        assert entries[j] == init[j];
      }
      assert FirstWithUrl(entries, k);
    }
  }

  /** The dedup map and its insertion order hold exactly the entries `d`, keyed by url. */
  predicate Tracks(m: map<string, ScrapedApp>, order: seq<string>, d: seq<ScrapedApp>) {
    && |order| == |d|
    && (forall i :: 0 <= i < |d| ==> order[i] == d[i].url && d[i].url in m && m[d[i].url] == d[i])
    && (forall u :: u in m ==> HasUrl(d, u))
  }

  /**
   * The dedup loop over the results: each url not yet in the map is added
   * with its first entry, and the listing lengths are summed. A JS Map is
   * modelled by a map and its key insertion order.
   */
  method DedupByUrl(usageResults: seq<UsageResult>)
    returns (allCollectedApps: map<string, ScrapedApp>, urlOrder: seq<string>, totalAppsCollected: nat)
    ensures totalAppsCollected == |Flatten(usageResults)|
    ensures Tracks(allCollectedApps, urlOrder, FirstSeen(Flatten(usageResults)))
  {
    allCollectedApps, urlOrder, totalAppsCollected := map[], [], 0;
    for r := 0 to |usageResults|
      invariant totalAppsCollected == |Flatten(usageResults[..r])|
      invariant Tracks(allCollectedApps, urlOrder, FirstSeen(Flatten(usageResults[..r])))
    {
      var result := usageResults[r];
      assert usageResults[..r + 1] == usageResults[..r] + [result];
      FlattenSnoc(usageResults[..r], result);
      if |result.apps| > 0 {
        allCollectedApps, urlOrder := DedupListing(allCollectedApps, urlOrder, Flatten(usageResults[..r]), result.apps);
        totalAppsCollected := totalAppsCollected + |result.apps|;
      } else {
        assert Flatten(usageResults[..r]) + result.apps == Flatten(usageResults[..r]);
      }
    }
    assert usageResults[..|usageResults|] == usageResults;
  }

  /** The `forEach` over one listing: add each entry whose url is non-empty and not yet a key. */
  method DedupListing(m0: map<string, ScrapedApp>, order0: seq<string>, ghost seen: seq<ScrapedApp>, apps: seq<ScrapedApp>)
    returns (allCollectedApps: map<string, ScrapedApp>, urlOrder: seq<string>)
    requires Tracks(m0, order0, FirstSeen(seen))
    ensures Tracks(allCollectedApps, urlOrder, FirstSeen(seen + apps))
  {
    allCollectedApps, urlOrder := m0, order0;
    assert seen + apps[..0] == seen;
    for a := 0 to |apps|
      invariant Tracks(allCollectedApps, urlOrder, FirstSeen(seen + apps[..a]))
    {
      var app := apps[a];
      assert seen + apps[..a + 1] == (seen + apps[..a]) + [app];
      DedupStep(allCollectedApps, urlOrder, seen + apps[..a], app);
      if app.url != "" && app.url !in allCollectedApps {
        allCollectedApps := allCollectedApps[app.url := app];
        urlOrder := urlOrder + [app.url];
      }
    }
    assert apps[..|apps|] == apps;
  }

  /** One pass of the listing loop: the map keeps tracking the first-seen entries, whether or not the entry is added. */
  lemma DedupStep(m: map<string, ScrapedApp>, order: seq<string>, prefix: seq<ScrapedApp>, app: ScrapedApp)
    requires Tracks(m, order, FirstSeen(prefix))
    ensures app.url != "" && app.url !in m ==> Tracks(m[app.url := app], order + [app.url], FirstSeen(prefix + [app]))
    ensures !(app.url != "" && app.url !in m) ==> Tracks(m, order, FirstSeen(prefix + [app]))
  {
    var d := FirstSeen(prefix);
    FirstSeenSnoc(prefix, app);
    assert app.url in m <==> HasUrl(d, app.url) by {
      if HasUrl(d, app.url) {
        var i :| 0 <= i < |d| && d[i].url == app.url;
      }
    }
    if app.url != "" && app.url !in m {
      TracksAdd(m, order, d, app);
    }
  }

  lemma TracksAdd(m: map<string, ScrapedApp>, order: seq<string>, d: seq<ScrapedApp>, app: ScrapedApp)
    requires Tracks(m, order, d) && app.url !in m
    ensures Tracks(m[app.url := app], order + [app.url], d + [app])
  {
    assert (d + [app])[|d|] == app;
    forall u | u in m[app.url := app] ensures HasUrl(d + [app], u) {
      if u != app.url {
        var i :| 0 <= i < |d| && d[i].url == u;
        assert (d + [app])[i] == d[i];
      }
    }
  }

  /** The values of the dedup map, in key insertion order. */
  function ValuesInOrder(m: map<string, ScrapedApp>, order: seq<string>): seq<ScrapedApp>
    requires forall i :: 0 <= i < |order| ==> order[i] in m
  {
    seq(|order|, i requires 0 <= i < |order| => m[order[i]])
  }

  /* ---------------- New apps ---------------- */

  /** The candidates whose url is not among the stored urls, in order. */
  function NotStored(candidates: seq<ScrapedApp>, existingUrls: set<string>): seq<ScrapedApp> {
    if candidates == [] then []
    else
      var kept := NotStored(candidates[..|candidates| - 1], existingUrls);
      var app := candidates[|candidates| - 1];
      if app.url in existingUrls then kept else kept + [app]
  }

  /** The filter keeps exactly the candidates whose url is not stored. */
  lemma {:induction false} NotStoredMembers(candidates: seq<ScrapedApp>, existingUrls: set<string>)
    ensures forall x :: x in NotStored(candidates, existingUrls) <==> x in candidates && x.url !in existingUrls
  {
    if candidates != [] {
      var init := candidates[..|candidates| - 1];
      NotStoredMembers(init, existingUrls);
      assert candidates == init + [candidates[|candidates| - 1]];
    }
  }

  /** Filtering candidates with distinct urls keeps the urls distinct. */
  lemma {:induction false} NotStoredDistinct(candidates: seq<ScrapedApp>, existingUrls: set<string>)
    requires forall i, j :: 0 <= i < j < |candidates| ==> candidates[i].url != candidates[j].url
    ensures forall i, j :: 0 <= i < j < |NotStored(candidates, existingUrls)| ==>
      NotStored(candidates, existingUrls)[i].url != NotStored(candidates, existingUrls)[j].url
  {
    if candidates != [] {
      var init := candidates[..|candidates| - 1];
      var app := candidates[|candidates| - 1];
      NotStoredDistinct(init, existingUrls);
      NotStoredMembers(init, existingUrls);
      var kept := NotStored(init, existingUrls);
      if app.url !in existingUrls {
        forall i | 0 <= i < |kept| ensures kept[i].url != app.url {
          assert kept[i] in init;
          var k :| 0 <= k < |init| && init[k] == kept[i];
          assert candidates[k] == init[k];
        }
        assert (kept + [app])[|kept|] == app;
      }
    }
  }

  /** The filter keeps exactly the candidates whose url is not stored, and keeps urls distinct. */
  lemma NotStoredSpec(candidates: seq<ScrapedApp>, existingUrls: set<string>)
    ensures forall x :: x in NotStored(candidates, existingUrls) <==> x in candidates && x.url !in existingUrls
    ensures (forall i, j :: 0 <= i < j < |candidates| ==> candidates[i].url != candidates[j].url) ==>
      forall i, j :: 0 <= i < j < |NotStored(candidates, existingUrls)| ==>
        NotStored(candidates, existingUrls)[i].url != NotStored(candidates, existingUrls)[j].url
  {
    NotStoredMembers(candidates, existingUrls);
    if forall i, j :: 0 <= i < j < |candidates| ==> candidates[i].url != candidates[j].url {
      NotStoredDistinct(candidates, existingUrls);
    }
  }

  /** The apps a run inserts: first-seen entries whose url is not already stored. */
  function NewApps(existing: seq<AppRow>, results: seq<UsageResult>): seq<ScrapedApp> {
    NotStored(FirstSeen(Flatten(results)), AppUrls(existing))
  }

  /** The insert values: name, url and amount, with no description and no category. */
  function BasicAppData(newApps: seq<ScrapedApp>): (values: seq<AppValues>)
    ensures |values| == |newApps|
    ensures forall k :: 0 <= k < |newApps| ==>
      && values[k].name == newApps[k].name && values[k].url == newApps[k].url
      && values[k].description.None? && values[k].category.None?
      && values[k].tokensUsed == Some(newApps[k].tokensUsed)
  {
    seq(|newApps|, k requires 0 <= k < |newApps| =>
      AppValues(newApps[k].name, newApps[k].url, None, None, Some(newApps[k].tokensUsed)))
  }

  /** The new urls are not yet stored and are distinct, so the insert respects the unique url constraint. */
  lemma NewAppsInsertable(existing: seq<AppRow>, results: seq<UsageResult>)
    ensures forall k :: 0 <= k < |NewApps(existing, results)| ==>
      NewApps(existing, results)[k].url !in AppUrls(existing) && NewApps(existing, results)[k].url != ""
    ensures forall k, l :: 0 <= k < l < |NewApps(existing, results)| ==>
      NewApps(existing, results)[k].url != NewApps(existing, results)[l].url
  {
    var d := FirstSeen(Flatten(results));
    FirstSeenDistinct(Flatten(results));
    NotStoredSpec(d, AppUrls(existing));
    var n := NewApps(existing, results);
    forall k | 0 <= k < |n| ensures n[k].url != "" {
      assert n[k] in d;
    }
  }

  /** After the insert, every non-empty url seen in the run is stored. */
  lemma CollectedUrlsStored(existing: seq<AppRow>, results: seq<UsageResult>, firstId: nat, now: nat, url: string)
    requires url != "" && HasUrl(Flatten(results), url)
    ensures url in AppUrls(existing + NumberedApps(BasicAppData(NewApps(existing, results)), firstId, now))
  {
    var d := FirstSeen(Flatten(results));
    FirstSeenCovers(Flatten(results), url);
    var i :| 0 <= i < |d| && d[i].url == url;
    var all := existing + NumberedApps(BasicAppData(NewApps(existing, results)), firstId, now);
    if url in AppUrls(existing) {
      var k :| 0 <= k < |existing| && existing[k].url == url;
      assert all[k] == existing[k];
    } else {
      NotStoredSpec(d, AppUrls(existing));
      var n := NewApps(existing, results);
      assert d[i] in n;
      var k :| 0 <= k < |n| && n[k] == d[i];
      assert all[|existing| + k].url == url;
    }
  }

  /* ---------------- Usage history ---------------- */

  /** The first model row with this model name, if any. */
  function FindModel(allModels: seq<ModelRow>, name: string): Option<ModelRow> {
    if allModels == [] then None
    else if allModels[0].modelName == name then Some(allModels[0])
    else FindModel(allModels[1..], name)
  }

  /** The lookup succeeds exactly when some model has the name, and then returns the first such model. */
  lemma {:induction false} FindModelSpec(allModels: seq<ModelRow>, name: string)
    ensures FindModel(allModels, name).Some? <==> HasModel(allModels, name)
    ensures FindModel(allModels, name).Some? ==>
      exists i :: 0 <= i < |allModels| && allModels[i] == FindModel(allModels, name).value
        && allModels[i].modelName == name
        && forall j :: 0 <= j < i ==> allModels[j].modelName != name
  {
    if allModels != [] && allModels[0].modelName != name {
      var tail := allModels[1..];
      FindModelSpec(tail, name);
      if HasModel(allModels, name) {
        var i :| 0 <= i < |allModels| && allModels[i].modelName == name;
        assert tail[i - 1] == allModels[i];
      }
      if HasModel(tail, name) {
        var i :| 0 <= i < |tail| && tail[i].modelName == name;
        assert allModels[i + 1] == tail[i];
      }
      if FindModel(tail, name).Some? {
        var i :| 0 <= i < |tail| && tail[i] == FindModel(tail, name).value && tail[i].modelName == name
          && forall j :: 0 <= j < i ==> tail[j].modelName != name;
        assert allModels[i + 1] == tail[i];
        forall j | 0 <= j < i + 1 ensures allModels[j].modelName != name {
          if j > 0 { assert allModels[j] == tail[j - 1]; }
        }
      }
    } else if allModels != [] {
      assert HasModel(allModels, name) by { assert allModels[0].modelName == name; }
    }
  }

  /** With unique model names, looking up a model's own name finds that model. */
  lemma FindOwnModel(allModels: seq<ModelRow>, k: nat)
    requires ModelNamesUnique(allModels) && k < |allModels|
    ensures FindModel(allModels, allModels[k].modelName) == Some(allModels[k])
  {
    assert HasModel(allModels, allModels[k].modelName);
    FindModelSpec(allModels, allModels[k].modelName);
    var i :| 0 <= i < |allModels| && allModels[i] == FindModel(allModels, allModels[k].modelName).value
      && allModels[i].modelName == allModels[k].modelName;
    assert i == k;
  }

  /** The history rows of one listing. */
  function HistoryRows(apps: seq<ScrapedApp>, model: ModelRow, batchId: nat): seq<HistoryRow> {
    seq(|apps|, k requires 0 <= k < |apps| =>
      HistoryRow(apps[k].name, apps[k].url, model.displayName, model.modelName, batchId, apps[k].tokensUsed))
  }

  /** The history rows one result contributes: none when it is empty or its model is unknown. */
  function HistoryOf(result: UsageResult, allModels: seq<ModelRow>, batchId: nat): seq<HistoryRow> {
    var modelInfo := FindModel(allModels, result.modelName);
    if |result.apps| > 0 && modelInfo.Some? then HistoryRows(result.apps, modelInfo.value, batchId) else []
  }

  /** The history rows of a run, result after result. */
  function HistoryFor(results: seq<UsageResult>, allModels: seq<ModelRow>, batchId: nat): seq<HistoryRow> {
    if results == [] then []
    else HistoryFor(results[..|results| - 1], allModels, batchId) + HistoryOf(results[|results| - 1], allModels, batchId)
  }

  lemma HistoryForSnoc(results: seq<UsageResult>, r: UsageResult, allModels: seq<ModelRow>, batchId: nat)
    ensures HistoryFor(results + [r], allModels, batchId) == HistoryFor(results, allModels, batchId) + HistoryOf(r, allModels, batchId)
  {
    assert (results + [r])[..|results|] == results;
  }

  /** Every history row of a run carries the run's batch id. */
  lemma {:induction false} HistoryTagged(results: seq<UsageResult>, allModels: seq<ModelRow>, batchId: nat)
    ensures forall i :: 0 <= i < |HistoryFor(results, allModels, batchId)| ==>
      HistoryFor(results, allModels, batchId)[i].collectBatchId == batchId
  {
    if results != [] {
      HistoryTagged(results[..|results| - 1], allModels, batchId);
    }
  }

  /**
   * When every result's model is known, the history holds one row per listed
   * entry (duplicates and empty urls included), carrying that entry's name,
   * url and amount.
   */
  lemma {:induction false} HistoryMatchesListings(results: seq<UsageResult>, allModels: seq<ModelRow>, batchId: nat)
    requires forall k :: 0 <= k < |results| ==> HasModel(allModels, results[k].modelName)
    ensures |HistoryFor(results, allModels, batchId)| == |Flatten(results)|
    ensures forall i :: 0 <= i < |Flatten(results)| ==>
      && HistoryFor(results, allModels, batchId)[i].appName == Flatten(results)[i].name
      && HistoryFor(results, allModels, batchId)[i].appUrl == Flatten(results)[i].url
      && HistoryFor(results, allModels, batchId)[i].tokensUsed == Flatten(results)[i].tokensUsed
  {
    if results != [] {
      var init := results[..|results| - 1];
      var last := results[|results| - 1];
      forall k | 0 <= k < |init| ensures HasModel(allModels, init[k].modelName) {
        assert init[k] == results[k];
      }
      HistoryMatchesListings(init, allModels, batchId);
      HistoryOfAttributed(last, allModels, batchId);
      assert results == init + [last];
      FlattenSnoc(init, last);
      var h0: seq<HistoryRow> := HistoryFor(init, allModels, batchId);
      var h1: seq<HistoryRow> := HistoryOf(last, allModels, batchId);
      var f0: seq<ScrapedApp> := Flatten(init);
      assert HistoryFor(results, allModels, batchId) == h0 + h1;
      forall i | 0 <= i < |Flatten(results)|
        ensures && (h0 + h1)[i].appName == (f0 + last.apps)[i].name
                && (h0 + h1)[i].appUrl == (f0 + last.apps)[i].url
                && (h0 + h1)[i].tokensUsed == (f0 + last.apps)[i].tokensUsed
      {
        if i >= |f0| {
          assert (h0 + h1)[i] == h1[i - |f0|];
          assert (f0 + last.apps)[i] == last.apps[i - |f0|];
        }
      }
    }
  }

  /**
   * A result whose model is known contributes one row per listed entry, in
   * order, each carrying that entry's fields and the display name and model
   * name of the first model row with the result's model name.
   */
  lemma HistoryOfAttributed(result: UsageResult, allModels: seq<ModelRow>, batchId: nat)
    requires HasModel(allModels, result.modelName)
    ensures |HistoryOf(result, allModels, batchId)| == |result.apps|
    ensures forall i :: 0 <= i < |result.apps| ==>
      HistoryOf(result, allModels, batchId)[i] ==
        HistoryRow(result.apps[i].name, result.apps[i].url,
                   FindModel(allModels, result.modelName).value.displayName, result.modelName,
                   batchId, result.apps[i].tokensUsed)
  {
    FindModelSpec(allModels, result.modelName);
  }

  /**
   * In a run over models with unique names, the history rows of the k-th
   * result are exactly that listing's rows attributed to the k-th model.
   */
  lemma HistoryOfOwnModel(models: seq<ModelRow>, fetch: string -> Option<seq<ScrapedApp>>, batchId: nat, k: nat)
    requires ModelNamesUnique(models) && k < |models|
    ensures |UsageOf(models, fetch)| == |models|
    ensures HistoryOf(UsageOf(models, fetch)[k], models, batchId) == HistoryRows(UsageOf(models, fetch)[k].apps, models[k], batchId)
  {
    UsageOfPointwise(models, fetch);
    FindOwnModel(models, k);
  }

  /** Every result of a run names a model of that run. */
  lemma UsageModelsKnown(models: seq<ModelRow>, fetch: string -> Option<seq<ScrapedApp>>)
    ensures forall k :: 0 <= k < |UsageOf(models, fetch)| ==> HasModel(models, UsageOf(models, fetch)[k].modelName)
  {
    UsageOfPointwise(models, fetch);
    forall k | 0 <= k < |UsageOf(models, fetch)| ensures HasModel(models, UsageOf(models, fetch)[k].modelName) {
      assert UsageOf(models, fetch)[k].modelName == models[k].modelName;
    }
  }

  /** The history loop: per non-empty result, look its model up and insert one row per entry. */
  method SaveHistory(db: Database, usageResults: seq<UsageResult>, allModels: seq<ModelRow>, batchId: nat)
    modifies db`history
    ensures db.history == old(db.history) + HistoryFor(usageResults, allModels, batchId)
  {
    for k := 0 to |usageResults|
      invariant db.history == old(db.history) + HistoryFor(usageResults[..k], allModels, batchId)
    {
      var result := usageResults[k];
      assert usageResults[..k + 1] == usageResults[..k] + [result];
      HistoryForSnoc(usageResults[..k], result, allModels, batchId);
      if |result.apps| > 0 {
        var modelInfo := FindModel(allModels, result.modelName);
        if modelInfo.None? {
          continue;
        }
        var usageHistoryData := HistoryRows(result.apps, modelInfo.value, batchId);
        if |usageHistoryData| > 0 {
          db.InsertHistory(usageHistoryData);
        }
      }
    }
    assert usageResults[..|usageResults|] == usageResults;
  }

  /* ---------------- The command ---------------- */

  /** Step 7: insert the candidates whose url is not stored yet, with no description and no category. */
  method SaveNewApps(db: Database, candidates: seq<ScrapedApp>, now: nat) returns (newApps: seq<ScrapedApp>)
    requires db.Valid()
    requires forall i, j :: 0 <= i < j < |candidates| ==> candidates[i].url != candidates[j].url
    modifies db`apps, db`nextAppId
    ensures db.Valid()
    ensures newApps == NotStored(candidates, AppUrls(old(db.apps)))
    ensures db.apps == old(db.apps) + NumberedApps(BasicAppData(newApps), old(db.nextAppId), now)
    ensures db.nextAppId == old(db.nextAppId) + |newApps|
  {
    var existingUrls := AppUrls(db.apps);
    newApps := NotStored(candidates, existingUrls);
    NotStoredSpec(candidates, existingUrls);
    if |newApps| > 0 {
      var basicAppData := BasicAppData(newApps);
      forall k | 0 <= k < |basicAppData| ensures basicAppData[k].url !in AppUrls(db.apps) {
        assert newApps[k] in newApps;
      }
      db.InsertApps(basicAppData, now);
    }
  }

  /** The summary the command reports. */
  datatype CollectSummary = CollectSummary(batchId: nat, modelsProcessed: nat, totalAppsCollected: nat, newAppsAdded: nat)

  /** `handleBatchCollectCommand`, with extraction outcomes `fetch` and the database clock reading `now`. */
  method HandleBatchCollectCommand(db: Database, fetch: string -> Option<seq<ScrapedApp>>, now: nat)
    returns (summary: CollectSummary)
    requires db.Valid()
    modifies db
    ensures db.Valid()
    ensures ModelTable(db.models, db.nextModelId) == Seeded(ModelTable(old(db.models), old(db.nextModelId)), PredefinedModels)
    ensures db.batches == old(db.batches) + [BatchRow(summary.batchId)]
    ensures forall i :: 0 <= i < |old(db.batches)| ==> old(db.batches)[i].id < summary.batchId
    ensures summary.modelsProcessed == |db.models|
    ensures summary.totalAppsCollected == |Flatten(UsageOf(db.models, fetch))|
    ensures summary.newAppsAdded == |NewApps(old(db.apps), UsageOf(db.models, fetch))|
    ensures db.apps == old(db.apps) + NumberedApps(BasicAppData(NewApps(old(db.apps), UsageOf(db.models, fetch))), old(db.nextAppId), now)
    ensures db.history == old(db.history) + HistoryFor(UsageOf(db.models, fetch), db.models, summary.batchId)
    ensures |db.history| == |old(db.history)| + summary.totalAppsCollected
  {
    SeedModels(db);
    summary := CollectRun(db, fetch, now);
  }

  /** Steps 2 to 8 of the command, on the seeded store: everything but the models table changes here. */
  method CollectRun(db: Database, fetch: string -> Option<seq<ScrapedApp>>, now: nat)
    returns (summary: CollectSummary)
    requires db.Valid()
    modifies db`batches, db`nextBatchId, db`apps, db`nextAppId, db`history
    ensures db.Valid()
    ensures db.batches == old(db.batches) + [BatchRow(summary.batchId)]
    ensures forall i :: 0 <= i < |old(db.batches)| ==> old(db.batches)[i].id < summary.batchId
    ensures summary.modelsProcessed == |db.models|
    ensures summary.totalAppsCollected == |Flatten(UsageOf(db.models, fetch))|
    ensures summary.newAppsAdded == |NewApps(old(db.apps), UsageOf(db.models, fetch))|
    ensures db.apps == old(db.apps) + NumberedApps(BasicAppData(NewApps(old(db.apps), UsageOf(db.models, fetch))), old(db.nextAppId), now)
    ensures db.history == old(db.history) + HistoryFor(UsageOf(db.models, fetch), db.models, summary.batchId)
    ensures |db.history| == |old(db.history)| + summary.totalAppsCollected
  {
    ghost var apps0, history0 := db.apps, db.history;
    var allModels := db.models;
    var batchId := db.InsertBatch();
    ghost var batches1 := db.batches;
    var usageResults, candidates, totalAppsCollected := GatherUsage(allModels, fetch);
    var newApps := SaveNewApps(db, candidates, now);
    assert newApps == NewApps(apps0, usageResults);
    SaveHistory(db, usageResults, allModels, batchId);
    assert |db.history| == |history0| + totalAppsCollected by {
      UsageModelsKnown(allModels, fetch);
      HistoryMatchesListings(usageResults, allModels, batchId);
    }
    summary := CollectSummary(batchId, |allModels|, totalAppsCollected, |newApps|);
    assert db.batches == batches1;
  }

  /**
   * Steps 5 and 6: the chunked collection, then the url dedup. The
   * candidates are the dedup map's values in insertion order; their urls
   * are distinct and non-empty.
   */
  method GatherUsage(allModels: seq<ModelRow>, fetch: string -> Option<seq<ScrapedApp>>)
    returns (usageResults: seq<UsageResult>, candidates: seq<ScrapedApp>, totalAppsCollected: nat)
    ensures usageResults == UsageOf(allModels, fetch)
    ensures candidates == FirstSeen(Flatten(usageResults))
    ensures totalAppsCollected == |Flatten(usageResults)|
    ensures forall i, j :: 0 <= i < j < |candidates| ==> candidates[i].url != candidates[j].url
  {
    usageResults := CollectUsageResults(allModels, fetch);
    ChunkedIsPlainMap(allModels, fetch, usageResults);
    var allCollectedApps, urlOrder;
    allCollectedApps, urlOrder, totalAppsCollected := DedupByUrl(usageResults);
    candidates := ValuesInOrder(allCollectedApps, urlOrder);
    FirstSeenDistinct(Flatten(usageResults));
  }
}
