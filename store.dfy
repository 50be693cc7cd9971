/**
 * The collector's Postgres tables as an in-memory store. Each table is a
 * sequence of rows in insertion order; each `serial` id column is a counter
 * that hands out the next id. Only the columns the commands read or write
 * are kept.
 */
module Store {
  import opened Wrappers

  /** A row of `models`; `modelName` is unique. */
  datatype ModelRow = ModelRow(id: nat, displayName: string, modelName: string)

  /** A row of `apps`; `url` is unique, description, category and tokensUsed are nullable. */
  datatype AppRow = AppRow(
    id: nat, name: string, url: string,
    description: Option<string>, category: Option<string>, tokensUsed: Option<string>,
    updatedAt: nat)

  /** The values an insert into `apps` supplies; id and updatedAt take their defaults. */
  datatype AppValues = AppValues(
    name: string, url: string,
    description: Option<string>, category: Option<string>, tokensUsed: Option<string>)

  /** A row of `collect_batch`: the insert supplies no values, so only the id matters here. */
  datatype BatchRow = BatchRow(id: nat)

  /** A row of `app_usage_history`, with the columns the batch collector writes. */
  datatype HistoryRow = HistoryRow(
    appName: string, appUrl: string, modelDisplayName: string, modelName: string,
    collectBatchId: nat, tokensUsed: string)

  /** Rows inserted together receive consecutive ids, and `now` as their timestamp. */
  function NumberedApps(values: seq<AppValues>, firstId: nat, now: nat): (rows: seq<AppRow>)
    ensures |rows| == |values|
    ensures forall k :: 0 <= k < |values| ==>
      rows[k] == AppRow(firstId + k, values[k].name, values[k].url,
                        values[k].description, values[k].category, values[k].tokensUsed, now)
  {
    if values == [] then []
    else
      var v := values[0];
      [AppRow(firstId, v.name, v.url, v.description, v.category, v.tokensUsed, now)]
        + NumberedApps(values[1..], firstId + 1, now)
  }

  /**
   * Setting an app's category and update time by id: the rows
   * with that id get the category and the timestamp, nothing else changes.
   */
  function SetCategory(apps: seq<AppRow>, id: nat, category: string, now: nat): (r: seq<AppRow>)
    ensures |r| == |apps|
    ensures forall i :: 0 <= i < |apps| ==>
      r[i] == if apps[i].id == id then apps[i].(category := Some(category), updatedAt := now) else apps[i]
  {
    if apps == [] then []
    else
      [if apps[0].id == id then apps[0].(category := Some(category), updatedAt := now) else apps[0]]
        + SetCategory(apps[1..], id, category, now)
  }

  predicate ModelNamesUnique(models: seq<ModelRow>) {
    forall i, j :: 0 <= i < j < |models| ==> models[i].modelName != models[j].modelName
  }

  predicate AppUrlsUnique(apps: seq<AppRow>) {
    forall i, j :: 0 <= i < j < |apps| ==> apps[i].url != apps[j].url
  }

  predicate AppIdsUnique(apps: seq<AppRow>) {
    forall i, j :: 0 <= i < j < |apps| ==> apps[i].id != apps[j].id
  }

  function AppUrls(apps: seq<AppRow>): set<string> {
    set i | 0 <= i < |apps| :: apps[i].url
  }

  class Database {
    var models: seq<ModelRow>
    var apps: seq<AppRow>
    var batches: seq<BatchRow>
    var history: seq<HistoryRow>
    /** The next values of the `serial` id sequences. */
    var nextModelId: nat
    var nextAppId: nat
    var nextBatchId: nat

    /** The unique constraints, and every id below its sequence's next value. */
    ghost predicate Valid()
      reads this`models, this`apps, this`batches, this`nextModelId, this`nextAppId, this`nextBatchId
    {
      && ModelNamesUnique(models)
      && (forall i :: 0 <= i < |models| ==> models[i].id < nextModelId)
      && AppUrlsUnique(apps) && AppIdsUnique(apps)
      && (forall i :: 0 <= i < |apps| ==> apps[i].id < nextAppId)
      && (forall i :: 0 <= i < |batches| ==> batches[i].id < nextBatchId)
    }

    constructor ()
      ensures Valid()
      ensures models == [] && apps == [] && batches == [] && history == []
      ensures nextModelId == 1 && nextAppId == 1 && nextBatchId == 1
    {
      models, apps, batches, history := [], [], [], [];
      nextModelId, nextAppId, nextBatchId := 1, 1, 1;
    }

    /** `insert into models`; the unique constraint on modelName is the caller's to respect. */
    method InsertModel(displayName: string, modelName: string)
      requires Valid()
      requires forall i :: 0 <= i < |models| ==> models[i].modelName != modelName
      modifies this`models, this`nextModelId
      ensures Valid()
      ensures models == old(models) + [ModelRow(old(nextModelId), displayName, modelName)]
      ensures nextModelId == old(nextModelId) + 1
    {
      models := models + [ModelRow(nextModelId, displayName, modelName)];
      nextModelId := nextModelId + 1;
    }

    /** Insert into `collect_batch` with no values, returning the new id. */
    method InsertBatch() returns (id: nat)
      requires Valid()
      modifies this`batches, this`nextBatchId
      ensures Valid()
      ensures id == old(nextBatchId)
      ensures batches == old(batches) + [BatchRow(id)]
      ensures nextBatchId == id + 1
      ensures forall i :: 0 <= i < |old(batches)| ==> old(batches)[i].id < id
    {
      id := nextBatchId;
      batches := batches + [BatchRow(id)];
      nextBatchId := nextBatchId + 1;
    }

    /** Bulk `insert into apps`; the urls must be new and distinct, as the unique constraint demands. */
    method InsertApps(values: seq<AppValues>, now: nat)
      requires Valid()
      requires forall k :: 0 <= k < |values| ==> values[k].url !in AppUrls(apps)
      requires forall k, l :: 0 <= k < l < |values| ==> values[k].url != values[l].url
      modifies this`apps, this`nextAppId
      ensures Valid()
      ensures apps == old(apps) + NumberedApps(values, old(nextAppId), now)
      ensures nextAppId == old(nextAppId) + |values|
    {
      var added := NumberedApps(values, nextAppId, now);
      forall i, j | 0 <= i < j < |apps + added|
        ensures (apps + added)[i].url != (apps + added)[j].url
      {
        if j >= |apps| && i < |apps| {
          assert (apps + added)[j].url == values[j - |apps|].url;
          assert (apps + added)[i].url in AppUrls(apps);
        }
      }
      apps := apps + added;
      nextAppId := nextAppId + |values|;
    }

    /** Bulk `insert into app_usage_history`. */
    method InsertHistory(rows: seq<HistoryRow>)
      modifies this`history
      ensures history == old(history) + rows
    {
      history := history + rows;
    }

    /** Set the category and update time of the apps with this id. */
    method UpdateCategory(id: nat, category: string, now: nat)
      requires Valid()
      modifies this`apps
      ensures Valid()
      ensures apps == SetCategory(old(apps), id, category, now)
    {
      apps := SetCategory(apps, id, category, now);
    }
  }
}
