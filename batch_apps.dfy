/**
 * The `batch-apps` command: select the apps missing a category or a
 * description, extract a category for each in chunks of five, then write
 * each extracted category with a fresh timestamp, counting successes and
 * failures.
 *
 * The browser extraction is the input `extract`: `extract(url)` is the
 * category the page was classified into, or None when extraction threw.
 * A failing database update is the input `updateFails(id)`.
 */
module BatchApps {
  import opened Wrappers
  import opened Store

  /** The six values the category schema admits. */
  datatype Category = Coding | Marketing | PersonalAssistant | Roleplay | Translation | Others
  {
    /** The enum text stored in `apps.category`. */
    function Name(): (r: string)
      ensures r in CategoryNames
    {
      match this
      case Coding => "Coding"
      case Marketing => "Marketing"
      case PersonalAssistant => "Personal Assistant"
      case Roleplay => "Roleplay"
      case Translation => "Translation"
      case Others => "Others"
    }
  }

  const CategoryNames: seq<string> := ["Coding", "Marketing", "Personal Assistant", "Roleplay", "Translation", "Others"]

  /* ---------------- The worklist ---------------- */

  /** An app needs metadata when its category or its description is null. */
  predicate NeedsMetadata(app: AppRow) {
    app.category.None? || app.description.None?
  }

  /** The selection query: the apps needing metadata, in store order. */
  function Worklist(apps: seq<AppRow>): seq<AppRow> {
    if apps == [] then []
    else Worklist(apps[..|apps| - 1]) + (if NeedsMetadata(apps[|apps| - 1]) then [apps[|apps| - 1]] else [])
  }

  /** The selection distributes over concatenation: it keeps store order. */
  lemma {:induction false} WorklistAppend(a: seq<AppRow>, b: seq<AppRow>)
    ensures Worklist(a + b) == Worklist(a) + Worklist(b)
    decreases |b|
  {
    if b == [] {
      assert a + b == a;
    } else {
      var b' := b[..|b| - 1];
      assert (a + b)[..|a + b| - 1] == a + b';
      WorklistAppend(a, b');
    }
  }

  /** The worklist holds exactly the apps with a null category or a null description. */
  lemma {:induction false} WorklistMembers(apps: seq<AppRow>)
    ensures forall x :: x in Worklist(apps) <==> x in apps && NeedsMetadata(x)
  {
    if apps != [] {
      var init := apps[..|apps| - 1];
      WorklistMembers(init);
      assert apps == init + [apps[|apps| - 1]];
    }
  }

  /* ---------------- Chunked category extraction ---------------- */

  /** One element of `metadataUpdates` when extraction succeeded. */
  datatype CategoryUpdate = CategoryUpdate(id: nat, category: Category)

  /** One task of a chunk: the app's id with its extracted category, or null when extraction threw. */
  function CategoryTask(app: AppRow, extract: string -> Option<Category>): (r: Option<CategoryUpdate>)
    ensures r.None? <==> extract(app.url).None?
    ensures r.Some? ==> r.value.id == app.id && r.value.category == extract(app.url).value
  {
    match extract(app.url)
    case None => None
    case Some(category) => Some(CategoryUpdate(app.id, category))
  }

  /** The updates as a plain map over the worklist, in order. */
  function UpdatesFor(worklist: seq<AppRow>, extract: string -> Option<Category>): seq<Option<CategoryUpdate>> {
    if worklist == [] then []
    else UpdatesFor(worklist[..|worklist| - 1], extract) + [CategoryTask(worklist[|worklist| - 1], extract)]
  }

  /** One update per worklist app, in worklist order; null exactly where that app's extraction failed. */
  lemma {:induction false} UpdatesPointwise(worklist: seq<AppRow>, extract: string -> Option<Category>)
    ensures |UpdatesFor(worklist, extract)| == |worklist|
    ensures forall k :: 0 <= k < |worklist| ==> UpdatesFor(worklist, extract)[k] == CategoryTask(worklist[k], extract)
  {
    if worklist != [] {
      UpdatesPointwise(worklist[..|worklist| - 1], extract);
    }
  }

  /** One chunk of concurrent extractions, run here as a sequential map in chunk order. */
  method RunCategoryChunk(batch: seq<AppRow>, extract: string -> Option<Category>)
    returns (batchResults: seq<Option<CategoryUpdate>>)
    ensures |batchResults| == |batch|
    ensures forall k :: 0 <= k < |batch| ==> batchResults[k] == CategoryTask(batch[k], extract)
  {
    batchResults := [];
    for j := 0 to |batch|
      invariant |batchResults| == j
      invariant forall k :: 0 <= k < j ==> batchResults[k] == CategoryTask(batch[k], extract)
    {
      batchResults := batchResults + [CategoryTask(batch[j], extract)];
    }
  }

  const ConcurrencyLimit: nat := 5

  /** The chunk loop: slices of five apps, pushed in order. */
  method CollectCategoryUpdates(appsToUpdate: seq<AppRow>, extract: string -> Option<Category>)
    returns (metadataUpdates: seq<Option<CategoryUpdate>>)
    ensures |metadataUpdates| == |appsToUpdate|
    ensures forall k :: 0 <= k < |appsToUpdate| ==> metadataUpdates[k] == CategoryTask(appsToUpdate[k], extract)
  {
    metadataUpdates := [];
    var i := 0;
    while i < |appsToUpdate|
      invariant |metadataUpdates| == if i < |appsToUpdate| then i else |appsToUpdate|
      invariant forall k :: 0 <= k < |metadataUpdates| ==> metadataUpdates[k] == CategoryTask(appsToUpdate[k], extract)
    {
      var end := if i + ConcurrencyLimit < |appsToUpdate| then i + ConcurrencyLimit else |appsToUpdate|;
      var batchResults := RunCategoryChunk(appsToUpdate[i..end], extract);
      metadataUpdates := metadataUpdates + batchResults;
      i := i + ConcurrencyLimit;
    }
  }

  /* ---------------- The update loop ---------------- */

  /** The store after the update loop: each non-null update whose write succeeds sets that row's category. */
  function ApplyUpdates(apps: seq<AppRow>, updates: seq<Option<CategoryUpdate>>, updateFails: nat -> bool, now: nat)
    : (r: seq<AppRow>)
    ensures |r| == |apps|
  {
    if updates == [] then apps
    else
      var before := ApplyUpdates(apps, updates[..|updates| - 1], updateFails, now);
      match updates[|updates| - 1]
      case None => before
      case Some(u) => if updateFails(u.id) then before else SetCategory(before, u.id, u.category.Name(), now)
  }

  /** The number of updates written. */
  function SuccessCount(updates: seq<Option<CategoryUpdate>>, updateFails: nat -> bool): nat {
    if updates == [] then 0
    else
      var last := updates[|updates| - 1];
      SuccessCount(updates[..|updates| - 1], updateFails) + (if last.Some? && !updateFails(last.value.id) then 1 else 0)
  }

  /** The number of null updates plus the number of writes that failed. */
  function FailCount(updates: seq<Option<CategoryUpdate>>, updateFails: nat -> bool): nat {
    if updates == [] then 0
    else
      var last := updates[|updates| - 1];
      FailCount(updates[..|updates| - 1], updateFails) + (if last.None? || updateFails(last.value.id) then 1 else 0)
  }

  /** Every update is counted exactly once, as a success or as a failure. */
  lemma {:induction false} CountsCoverUpdates(updates: seq<Option<CategoryUpdate>>, updateFails: nat -> bool)
    ensures SuccessCount(updates, updateFails) + FailCount(updates, updateFails) == |updates|
  {
    if updates != [] {
      CountsCoverUpdates(updates[..|updates| - 1], updateFails);
    }
  }

  /** The category of the last written update for a given id, if any. */
  function LastWritten(updates: seq<Option<CategoryUpdate>>, updateFails: nat -> bool, id: nat): Option<Category> {
    if updates == [] then None
    else
      var last := updates[|updates| - 1];
      if last.Some? && last.value.id == id && !updateFails(id) then Some(last.value.category)
      else LastWritten(updates[..|updates| - 1], updateFails, id)
  }

  /**
   * The update loop changes only category and updatedAt: every row keeps its
   * id, name, url, description and amount, and the row count is unchanged.
   * A row's category ends as the last written category for its id, with
   * its update time set to the write's clock reading, and a row no write
   * targeted is unchanged altogether.
   */
  lemma {:induction false} ApplyUpdatesEffect(apps: seq<AppRow>, updates: seq<Option<CategoryUpdate>>, updateFails: nat -> bool, now: nat)
    ensures forall i :: 0 <= i < |apps| ==>
      && ApplyUpdates(apps, updates, updateFails, now)[i].(category := apps[i].category, updatedAt := apps[i].updatedAt) == apps[i]
      && ApplyUpdates(apps, updates, updateFails, now)[i].category ==
           (if LastWritten(updates, updateFails, apps[i].id).Some?
            then Some(LastWritten(updates, updateFails, apps[i].id).value.Name())
            else apps[i].category)
      && (LastWritten(updates, updateFails, apps[i].id).Some? ==> ApplyUpdates(apps, updates, updateFails, now)[i].updatedAt == now)
      && (LastWritten(updates, updateFails, apps[i].id).None? ==> ApplyUpdates(apps, updates, updateFails, now)[i] == apps[i])
  {
    if updates != [] {
      var init := updates[..|updates| - 1];
      ApplyUpdatesEffect(apps, init, updateFails, now);
    }
  }

  /** A written category is one of the six enum values. */
  lemma WrittenCategoryIsEnum(apps: seq<AppRow>, updates: seq<Option<CategoryUpdate>>, updateFails: nat -> bool, now: nat, i: nat)
    requires i < |apps|
    requires ApplyUpdates(apps, updates, updateFails, now)[i].category != apps[i].category
    ensures ApplyUpdates(apps, updates, updateFails, now)[i].category.Some?
    ensures ApplyUpdates(apps, updates, updateFails, now)[i].category.value in CategoryNames
  {
    ApplyUpdatesEffect(apps, updates, updateFails, now);
  }

  /* ---------------- The command ---------------- */

  datatype BackfillOutcome =
    | NothingToUpdate
    | Completed(processed: nat, successCount: nat, failCount: nat)

  lemma ApplyUpdatesSnoc(apps: seq<AppRow>, updates: seq<Option<CategoryUpdate>>, u: Option<CategoryUpdate>,
                         updateFails: nat -> bool, now: nat)
    ensures ApplyUpdates(apps, updates + [u], updateFails, now) ==
      if u.None? || updateFails(u.value.id) then ApplyUpdates(apps, updates, updateFails, now)
      else SetCategory(ApplyUpdates(apps, updates, updateFails, now), u.value.id, u.value.category.Name(), now)
    ensures SuccessCount(updates + [u], updateFails) ==
      SuccessCount(updates, updateFails) + (if u.Some? && !updateFails(u.value.id) then 1 else 0)
    ensures FailCount(updates + [u], updateFails) ==
      FailCount(updates, updateFails) + (if u.None? || updateFails(u.value.id) then 1 else 0)
  {
    assert (updates + [u])[..|updates|] == updates;
  }

  /** The update loop: write each non-null update; a failed write is counted and the loop goes on. */
  method ApplyMetadataUpdates(db: Database, metadataUpdates: seq<Option<CategoryUpdate>>, updateFails: nat -> bool, now: nat)
    returns (successCount: nat, failCount: nat)
    requires db.Valid()
    modifies db`apps
    ensures db.Valid()
    ensures db.apps == ApplyUpdates(old(db.apps), metadataUpdates, updateFails, now)
    ensures successCount == SuccessCount(metadataUpdates, updateFails)
    ensures failCount == FailCount(metadataUpdates, updateFails)
  {
    successCount, failCount := 0, 0;
    for k := 0 to |metadataUpdates|
      invariant db.Valid()
      invariant db.apps == ApplyUpdates(old(db.apps), metadataUpdates[..k], updateFails, now)
      invariant successCount == SuccessCount(metadataUpdates[..k], updateFails)
      invariant failCount == FailCount(metadataUpdates[..k], updateFails)
    {
      var update := metadataUpdates[k];
      assert metadataUpdates[..k + 1] == metadataUpdates[..k] + [update];
      ApplyUpdatesSnoc(old(db.apps), metadataUpdates[..k], update, updateFails, now);
      if update.Some? {
        if !updateFails(update.value.id) {
          db.UpdateCategory(update.value.id, update.value.category.Name(), now);
          successCount := successCount + 1;
        } else {
          failCount := failCount + 1;
        }
      } else {
        failCount := failCount + 1;
      }
    }
    assert metadataUpdates[..|metadataUpdates|] == metadataUpdates;
  }

  /** `handleBatchAppsCommand`, with extraction outcomes `extract`, write failures `updateFails` and clock reading `now`. */
  method HandleBatchAppsCommand(db: Database, extract: string -> Option<Category>, updateFails: nat -> bool, now: nat)
    returns (outcome: BackfillOutcome)
    requires db.Valid()
    modifies db`apps
    ensures db.Valid()
    ensures Worklist(old(db.apps)) == [] ==> outcome == NothingToUpdate && db.apps == old(db.apps)
    ensures Worklist(old(db.apps)) != [] ==>
      && outcome == Completed(|Worklist(old(db.apps))|,
                              SuccessCount(UpdatesFor(Worklist(old(db.apps)), extract), updateFails),
                              FailCount(UpdatesFor(Worklist(old(db.apps)), extract), updateFails))
      && db.apps == ApplyUpdates(old(db.apps), UpdatesFor(Worklist(old(db.apps)), extract), updateFails, now)
    ensures outcome.Completed? ==> outcome.successCount + outcome.failCount == outcome.processed
  {
    var appsToUpdate := Worklist(db.apps);
    if |appsToUpdate| == 0 {
      return NothingToUpdate;
    }
    var metadataUpdates := CollectCategoryUpdates(appsToUpdate, extract);
    UpdatesPointwise(appsToUpdate, extract);
    assert metadataUpdates == UpdatesFor(appsToUpdate, extract);
    var successCount, failCount := ApplyMetadataUpdates(db, metadataUpdates, updateFails, now);
    CountsCoverUpdates(metadataUpdates, updateFails);
    outcome := Completed(|appsToUpdate|, successCount, failCount);
  }
}
