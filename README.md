# OpenRouter app-usage collector: a verified model of its data logic

The collector is a command-line tool. It reads, for each AI model in a fixed
catalog, the page listing which apps use that model and how many tokens each
app used. It stores the apps and the per-run usage history in Postgres, fills
in app categories later, and reports token totals per category. This project
models the sequential data logic of four commands over an in-memory store:

- **Token amounts** (`TokenAmount`, `TokenParse`). `convertTokensToNumber`
  turns an amount text such as "2.5M" or "900 k" into the exact integer it
  denotes. It renders that integer with en-US comma grouping and returns any
  text the amount pattern does not match unchanged. `parseTokenString`, used
  by the statistics report, reads such texts back: it drops the commas, keeps
  the leading integer, and reads "no number" as 0. The conversion is
  byte-identical in `batch-collect.ts` and `usage.ts`, so one function models
  both.
- **The store** (`Store`). A `Database` class holds the `models`, `apps`,
  `collect_batch` and `app_usage_history` tables as sequences of rows, plus a
  counter for the `serial` ids of `models`, `apps` and `collect_batch` (no
  command reads a history row's id, so history rows carry none). `Valid()`
  holds the unique constraints and the id invariants that the inserts keep.
- **`batch-collect`** (`BatchCollect`, `Catalog`, `Usage`). The run:
  - seeds the model catalog (`Catalog.PredefinedModels`), adding only the
    model names not yet stored;
  - opens one batch;
  - collects every model's listing in chunks of five, where a failed
    extraction gives an empty listing;
  - keeps the first entry seen for each non-empty url;
  - inserts the urls not yet stored as new apps with no description and no
    category;
  - appends one history row per listing entry, tagged with the batch id.
- **`usage`** (`Usage.CollectUsage`). It converts one model's listing entry
  by entry, but only when an output file is named.
- **`batch-apps`** (`BatchApps`). The backfill:
  - selects the apps whose category or description is null;
  - extracts a category for each, in chunks of five, where a failure gives
    null;
  - writes each successful category and its update time;
  - counts the successes and the failures, where a failed extraction and a
    failed write each count as one failure.
- **`stats`** (`Stats`). The report:
  - takes the latest batch and its history rows;
  - maps every url to its app's category, where a missing or empty category
    reads as "Others";
  - sums the parsed amounts per category and counts the distinct urls per
    category;
  - sorts the categories by descending total.

Browser extraction is an input to the model, and so are database write
failures and the clock. `fetch(modelName)` is `None` when the listing's
extraction throws. `extract(url)` is `None` when category extraction throws.
`updateFails(id)` says that the write for that id throws. `now` is the
timestamp the store writes.

The backfill always selects the apps whose category or description is null,
and it only ever writes the category; `BatchApps.Worklist` models exactly
that selection.

## Model

| member | source | states |
|---|---|---|
| TokenAmount.DigitSpan | apps/collector/commands/batch-collect.ts:25 | The first group's digit run: it has the longest all-digit prefix, and the next character is not a digit |
| TokenAmount.WhitespaceSpan | apps/collector/commands/batch-collect.ts:25 | The white space between the number and the unit: the longest prefix of white space |
| TokenAmount.FractionPart | apps/collector/commands/batch-collect.ts:25 | Splits the optional fraction (a point followed by at least one digit) from the rest, losing no character |
| TokenAmount.UnitPart | apps/collector/commands/batch-collect.ts:25 | After the number only white space, then at most one B/M/K letter in either case, then the end of the text are accepted |
| TokenAmount.MatchIsSpelling | apps/collector/commands/batch-collect.ts:25-28 | Every match is a well-formed amount, and spelling that amount gives back exactly the input text (the matcher is sound) |
| TokenAmount.SpellingMatches | apps/collector/commands/batch-collect.ts:25-28 | Every well-formed amount's spelling matches, with exactly those groups (the matcher is complete) |
| TokenAmount.CommaRejected | apps/collector/commands/batch-collect.ts:25-26 | A text containing a comma never matches the amount pattern |
| TokenAmount.SpellingHasNoComma | apps/collector/commands/batch-collect.ts:25 | The spelling of an amount never contains a comma |
| TokenAmount.Multiplier | apps/collector/commands/usage.ts:22-33 | The unit B or b gives the factor 1e9, M or m gives 1e6, K or k gives 1e3, and no unit gives 1 |
| TokenAmount.RoundHalfUp | apps/collector/commands/batch-collect.ts:44 | The rounded quotient is the integer nearest num/den, and a half rounds up |
| TokenAmount.WholeAmountValue | apps/collector/commands/batch-collect.ts:29-44 | An amount without a fraction is worth its digits times the unit's factor, with no rounding |
| TokenAmount.DecimalDigits | apps/collector/commands/batch-collect.ts:45 | The decimal rendering of a whole number is a non-empty digit string |
| TokenAmount.Pad3 | apps/collector/commands/batch-collect.ts:45 | A group below 1000 renders as exactly three digits |
| TokenAmount.DecimalDigitsValue | apps/collector/commands/batch-collect.ts:45 | The decimal rendering reads back as the same number |
| TokenAmount.Pad3Value | apps/collector/commands/batch-collect.ts:45 | A padded three-digit group reads back as the same number |
| TokenAmount.GroupedHasLayout | apps/collector/commands/batch-collect.ts:45 | The grouped rendering is one to three digits, then groups of a comma and three digits, and has no leading zero unless the number is 0 |
| TokenAmount.DecimalDigitsShape | apps/collector/commands/batch-collect.ts:45 | Numbers below 10, 100 and 1000 render with at most one, two and three digits, with no leading zero |
| TokenAmount.UnmatchedUnchanged | apps/collector/commands/batch-collect.ts:25-26 | A text that is no amount's spelling is returned unchanged |
| TokenAmount.MatchedConverted | apps/collector/commands/batch-collect.ts:24-46 | An amount's spelling converts to the grouped rendering of round(number × factor) |
| TokenAmount.SmallGroupedFixpoint | apps/collector/commands/batch-collect.ts:24-46 | The rendering of a number below 1000 converts to itself |
| TokenAmount.GroupedIsFixpoint | apps/collector/commands/batch-collect.ts:24-46 | Every grouped rendering converts to itself: no comma matches, and a plain three-digit number has no unit |
| TokenAmount.ConvertIdempotent | apps/collector/commands/batch-collect.ts:24-46 | Converting twice gives the same text as converting once |
| TokenAmount.GroupedExamples | apps/collector/commands/batch-collect.ts:45 | 42 renders as "42", and 900000 renders as "900,000" |
| TokenAmount.GroupedMillions | apps/collector/commands/batch-collect.ts:45 | 2500000 renders as "2,500,000" |
| TokenAmount.GroupedBillion | apps/collector/commands/batch-collect.ts:45 | 1000000000 renders as "1,000,000,000" |
| TokenAmount.AmountValueMillions | apps/collector/commands/batch-collect.ts:29-44 | "2" with the fraction "5" and unit M is worth 2,500,000 |
| TokenAmount.AmountValueThousands | apps/collector/commands/batch-collect.ts:29-44 | "900" with unit K, and "900" with a space and unit k, are both worth 900,000 |
| TokenAmount.AmountValuePlain | apps/collector/commands/batch-collect.ts:29-44 | "1" with unit B is worth 1e9, and "42" with no unit is worth 42 |
| TokenAmount.ConvertExampleMillions | apps/collector/commands/batch-collect.ts:24-46 | "2.5M" converts to "2,500,000" |
| TokenAmount.ConvertExampleThousands | apps/collector/commands/batch-collect.ts:24-46 | "900K" converts to "900,000" |
| TokenAmount.ConvertExampleSpacedUnit | apps/collector/commands/usage.ts:15-37 | "900 k" converts to "900,000": white space before the unit and a lower-case unit are accepted |
| TokenAmount.ConvertExampleBillions | apps/collector/commands/batch-collect.ts:24-46 | "1B" converts to "1,000,000,000" |
| TokenAmount.ConvertExamplePlain | apps/collector/commands/usage.ts:15-37 | "42" converts to "42" |
| TokenAmount.ConvertExampleUnmatched | apps/collector/commands/usage.ts:16-17 | "not-a-number" is returned unchanged |
| TokenParse.RemoveCommasAppend | apps/collector/commands/stats.ts:22 | Removing commas distributes over concatenation |
| TokenParse.RemoveCommasSpec | apps/collector/commands/stats.ts:22 | No comma remains, and a text without commas is unchanged |
| TokenParse.SkipWhitespaceOf | apps/collector/commands/stats.ts:23 | Base-10 parsing skips exactly the leading white space |
| TokenParse.SkipSignOf | apps/collector/commands/stats.ts:23 | Base-10 parsing skips exactly one optional sign, and the number is negative exactly when the sign is "-" |
| TokenParse.ParseDigitsOf | apps/collector/commands/stats.ts:23 | A digit run followed by a non-digit parses as the value of that run |
| TokenParse.ParseSignedOf | apps/collector/commands/stats.ts:23 | A sign and a digit run followed by a non-digit parse as the signed value of the run |
| TokenParse.ParseIntOf | apps/collector/commands/stats.ts:23 | White space, a sign and a digit run followed by anything else parse as the signed value of the run |
| TokenParse.ParseIntNone | apps/collector/commands/stats.ts:23-24 | Without a digit after the white space and the sign, parsing gives NaN |
| TokenParse.LeadingInteger | apps/collector/commands/stats.ts:20-25 | The reader returns the leading signed integer and ignores what follows it |
| TokenParse.NoLeadingInteger | apps/collector/commands/stats.ts:20-25 | A text without a leading integer reads as 0 |
| TokenParse.CommaIgnored | apps/collector/commands/stats.ts:22-23 | Inserting a comma anywhere never changes what is read |
| TokenParse.GroupedDigits | apps/collector/commands/stats.ts:22 | A grouped rendering without its commas is a non-empty digit string whose value is the number |
| TokenParse.GroupedRoundTrip | apps/collector/commands/stats.ts:20-25 | Reading the grouped rendering of n gives n |
| TokenParse.ConvertRoundTrip | apps/collector/commands/stats.ts:20-25 | For every amount the pattern matches, reading back the converted text gives exactly round(number × factor) |
| Store.NumberedApps | apps/collector/commands/batch-collect.ts:176 | A bulk insert gives one row per value, in order, with consecutive ids from the next id and the insert time |
| Store.SetCategory | apps/collector/commands/batch-apps.ts:140-145 | The rows with the given id get the category and the update time; all other fields and all other rows are unchanged |
| Store.Database.constructor | apps/collector/db/schema.ts:3-33 | An empty store, with every id sequence starting at 1 |
| Store.Database.InsertModel | apps/collector/commands/batch-collect.ts:55 | Appends one model row with the next id, and keeps the store valid |
| Store.Database.InsertBatch | apps/collector/commands/batch-collect.ts:101-102 | Appends one batch row whose id is the next id, which is larger than every earlier batch id |
| Store.Database.InsertApps | apps/collector/commands/batch-collect.ts:176 | Appends the numbered rows of new, distinct urls, and keeps urls and ids unique |
| Store.Database.InsertHistory | apps/collector/commands/batch-collect.ts:202 | Appends the history rows and changes nothing else |
| Store.Database.UpdateCategory | apps/collector/commands/batch-apps.ts:140-145 | The apps table becomes SetCategory of the old one, and the store stays valid |
| Usage.WithConvertedTokens | apps/collector/commands/usage.ts:69-72 | The converted listing has the same length as the extracted one |
| Usage.ConvertedEntries | apps/collector/commands/usage.ts:69-72 | Entry i keeps its name and url, and its amount is the conversion of entry i's amount |
| Usage.ConvertedIdempotent | apps/collector/commands/usage.ts:69-72 | Converting an already converted listing changes nothing |
| Usage.ConvertedReadBack | apps/collector/commands/usage.ts:69-72 | An entry whose amount was a well-formed amount's spelling reads back, through parseTokenString, as that amount's value |
| Usage.CollectUsage | apps/collector/commands/usage.ts:64-79 | Output exists exactly when a non-empty (truthy) file name is given; it names that file, and its entry i is extracted entry i with the same name and url and its amount converted |
| BatchCollect.SeededAppends | apps/collector/commands/batch-collect.ts:51-60 | Seeding only appends: earlier rows are unchanged, and each new row has the next id and a catalog entry's names, for a model name not stored before |
| BatchCollect.SeededCovers | apps/collector/commands/batch-collect.ts:51-60 | After seeding, every catalog model name is stored |
| BatchCollect.SeededUnique | apps/collector/commands/batch-collect.ts:51-60 | Seeding keeps model names unique |
| BatchCollect.SeededStable | apps/collector/commands/batch-collect.ts:51-60 | When every catalog name is already stored, seeding changes nothing |
| BatchCollect.SeededIdempotent | apps/collector/commands/batch-collect.ts:51-60 | A second seeding changes nothing |
| BatchCollect.UniqueCount | apps/collector/db/schema.ts:6 | With unique model names, a name occurs once if it is stored and zero times otherwise |
| BatchCollect.SeededExactlyOnce | apps/collector/commands/batch-collect.ts:51-60 | After seeding, every catalog model name occurs exactly once |
| BatchCollect.SeededStep | apps/collector/commands/batch-collect.ts:51-60 | One loop pass inserts the entry exactly when its name is not stored, then seeds from the rest of the catalog |
| BatchCollect.SeedCatalog | apps/collector/commands/batch-collect.ts:51-60 | The models table and its id counter become the seeding of the old ones with the given catalog |
| BatchCollect.SeedModels | apps/collector/commands/batch-collect.ts:48-61 | The same, with the predefined catalog |
| BatchCollect.CollectTask | apps/collector/commands/batch-collect.ts:124-131 | One model's result carries its id and name; a failed extraction gives an empty listing, and a successful one gives the converted listing |
| BatchCollect.UsageOfPointwise | apps/collector/commands/batch-collect.ts:117-135 | One result per model, in model order, each depending only on its own model's outcome |
| BatchCollect.RunChunk | apps/collector/commands/batch-collect.ts:122-133 | A chunk yields one result per model of the chunk, in chunk order |
| BatchCollect.CollectUsageResults | apps/collector/commands/batch-collect.ts:115-135 | Collecting in chunks of five yields, for every model in order, that model's own result |
| BatchCollect.ChunkedIsPlainMap | apps/collector/commands/batch-collect.ts:115-135 | Any result list that matches the models position by position is the plain in-order map over the models |
| BatchCollect.FirstSeenSnoc | apps/collector/commands/batch-collect.ts:142-150 | One more entry is kept exactly when its url is non-empty and not kept already |
| BatchCollect.FlattenSnoc | apps/collector/commands/batch-collect.ts:139-155 | The entries of one more result follow those of the earlier results |
| BatchCollect.FirstSeenDistinct | apps/collector/commands/batch-collect.ts:143 | The kept entries come from the listings, have non-empty urls, and have pairwise distinct urls |
| BatchCollect.FirstSeenCovers | apps/collector/commands/batch-collect.ts:143 | A url is kept exactly when it is non-empty and occurs in some listing |
| BatchCollect.FirstSeenIsFirst | apps/collector/commands/batch-collect.ts:143-148 | Each kept entry is the first entry with its url, so the first name and amount win |
| BatchCollect.TracksAdd | apps/collector/commands/batch-collect.ts:144-148 | Adding a new url to the dedup map and its key order keeps both matching the kept entries |
| BatchCollect.DedupStep | apps/collector/commands/batch-collect.ts:143-149 | Adding an entry whose url is non-empty and not yet a key, and skipping any other, both keep the map matching the first-seen entries |
| BatchCollect.DedupListing | apps/collector/commands/batch-collect.ts:142-150 | Going through one listing keeps the map matching the first-seen entries of everything seen so far |
| BatchCollect.DedupByUrl | apps/collector/commands/batch-collect.ts:137-155 | The total counts every entry of every listing, duplicates included, and the map holds exactly the first-seen entries in order |
| BatchCollect.NotStoredMembers | apps/collector/commands/batch-collect.ts:159-162 | An entry is kept exactly when it is a candidate whose url is not stored |
| BatchCollect.NotStoredDistinct | apps/collector/commands/batch-collect.ts:159-162 | Filtering candidates with distinct urls leaves distinct urls |
| BatchCollect.NotStoredSpec | apps/collector/commands/batch-collect.ts:159-162 | An entry is new exactly when it is a candidate whose url is not stored, and distinct candidate urls stay distinct |
| BatchCollect.BasicAppData | apps/collector/commands/batch-collect.ts:167-173 | One insert value per new app, in order, carrying its name, url and amount, with no description and no category |
| BatchCollect.NewAppsInsertable | apps/collector/commands/batch-collect.ts:157-176 | The new apps' urls are not stored yet and are pairwise distinct, so the insert respects the unique url constraint |
| BatchCollect.CollectedUrlsStored | apps/collector/commands/batch-collect.ts:157-178 | After the insert, every non-empty url seen in the run is stored |
| BatchCollect.FindModelSpec | apps/collector/commands/batch-collect.ts:186 | A model is found exactly when some row has that name, and the one found is the first such row |
| BatchCollect.FindOwnModel | apps/collector/commands/batch-collect.ts:186-190 | With unique names, looking a stored row up by its name finds that same row |
| BatchCollect.HistoryForSnoc | apps/collector/commands/batch-collect.ts:183-206 | The history of one more result follows that of the earlier results |
| BatchCollect.HistoryTagged | apps/collector/commands/batch-collect.ts:192-199 | Every history row of the run carries the run's batch id |
| BatchCollect.HistoryMatchesListings | apps/collector/commands/batch-collect.ts:183-206 | When every result's model is known, there is one history row per listing entry, duplicates and empty urls included, and row i carries entry i's name, url and amount |
| BatchCollect.HistoryOfAttributed | apps/collector/commands/batch-collect.ts:186-199 | A result whose model is known gives one row per listed entry, in order, with the entry's name, url and amount, the found model's display name, the result's model name and the batch id |
| BatchCollect.HistoryOfOwnModel | apps/collector/commands/batch-collect.ts:183-206 | With unique model names, the k-th result's history rows are its listing's rows attributed to the k-th model |
| BatchCollect.UsageModelsKnown | apps/collector/commands/batch-collect.ts:124-131 | Every result's model name is a stored model's, so the lookup never skips a result |
| BatchCollect.SaveHistory | apps/collector/commands/batch-collect.ts:183-206 | Appends exactly the history rows of all results |
| BatchCollect.SaveNewApps | apps/collector/commands/batch-collect.ts:157-178 | Inserts exactly the candidates whose url is not stored, as numbered rows with no description and no category, leaving existing rows untouched |
| BatchCollect.GatherUsage | apps/collector/commands/batch-collect.ts:112-155 | The results are the in-order map over the models, the candidates are the first-seen entries, and the total counts all entries |
| BatchCollect.CollectRun | apps/collector/commands/batch-collect.ts:97-218 | One new batch with a larger id; the apps get the new urls appended; the history gets one row per listing entry; the summary counts match |
| BatchCollect.HandleBatchCollectCommand | apps/collector/commands/batch-collect.ts:88-228 | The whole run: seeded models, exactly one new batch, the new apps appended, one history row per listing entry tagged with the batch id, and the history growing by the total count |
| BatchApps.Category.Name | apps/collector/commands/batch-apps.ts:18-20 | The text of each category is one of the six enum values |
| BatchApps.WorklistAppend | apps/collector/commands/batch-apps.ts:86-91 | Selection distributes over concatenation, so it keeps store order |
| BatchApps.WorklistMembers | apps/collector/commands/batch-apps.ts:86-91 | An app is selected exactly when it is stored and its category or its description is null |
| BatchApps.CategoryTask | apps/collector/commands/batch-apps.ts:120-131 | An update is null exactly when extraction failed; otherwise it carries the app's id and the extracted category |
| BatchApps.UpdatesPointwise | apps/collector/commands/batch-apps.ts:115-134 | One update per worklist app, in worklist order |
| BatchApps.RunCategoryChunk | apps/collector/commands/batch-apps.ts:116-133 | A chunk yields one update per app of the chunk, in chunk order |
| BatchApps.CollectCategoryUpdates | apps/collector/commands/batch-apps.ts:114-134 | Collecting in chunks of five yields, for every worklist app in order, that app's own update |
| BatchApps.ApplyUpdates | apps/collector/commands/batch-apps.ts:136-154 | Applying the updates keeps the number of app rows |
| BatchApps.CountsCoverUpdates | apps/collector/commands/batch-apps.ts:137-154 | The success count plus the failure count equals the number of updates |
| BatchApps.ApplyUpdatesEffect | apps/collector/commands/batch-apps.ts:136-154 | Each row changes only in category and update time; its category is the last one successfully written for its id, and its update time is then the clock reading; a row no write reached is unchanged |
| BatchApps.WrittenCategoryIsEnum | apps/collector/commands/batch-apps.ts:18-20 | A changed category is one of the six enum values |
| BatchApps.ApplyUpdatesSnoc | apps/collector/commands/batch-apps.ts:137-154 | A null update or a failed write counts one failure and changes no row; a successful write counts one success and sets that id's category |
| BatchApps.ApplyMetadataUpdates | apps/collector/commands/batch-apps.ts:136-154 | The apps table becomes the updates applied in order, and the counters are the success and failure counts |
| BatchApps.HandleBatchAppsCommand | apps/collector/commands/batch-apps.ts:80-174 | An empty worklist changes nothing; otherwise the updates for the worklist are applied, and successes plus failures equal the worklist length |
| Stats.LatestBatchId | apps/collector/commands/stats.ts:36-47 | None exactly when there is no batch; otherwise an existing batch id that is at least every batch id |
| Stats.RowsOfBatchMembers | apps/collector/commands/stats.ts:51-54 | A history row is chosen exactly when it is tagged with the batch id, and as many times as it occurs in the history |
| Stats.CategoryText | apps/collector/commands/stats.ts:68 | A non-empty category stays as it is, and a null or empty one reads as "Others", so the result is never empty |
| Stats.CategoryOf | apps/collector/commands/stats.ts:63-69 | The category a url reads as is never empty |
| Stats.CategoryOfSpec | apps/collector/commands/stats.ts:63-69 | With unique urls, a url reads as its own app's category, and a url of no app reads as "Others" |
| Stats.BuildCategoryMap | apps/collector/commands/stats.ts:63-69 | The map has a key exactly for each stored url, and agrees with the category reading |
| Stats.StoreReadingMatches | apps/collector/commands/stats.ts:63-77 | Looking a url up in the map, with a missing entry as "Others", is the store's category reading |
| Stats.Unsnoc | apps/collector/commands/stats.ts:75-92 | The last row adds its category if new, adds its amount to the total, and adds its url to the url set |
| Stats.UnsnocCategories | apps/collector/commands/stats.ts:89-91 | The last row changes only its own category's amount and url set |
| Stats.CategoriesSpec | apps/collector/commands/stats.ts:80-87 | The categories are distinct, and a category is listed exactly when some row reads as it |
| Stats.AbsentCategory | apps/collector/commands/stats.ts:80-87 | A category no row reads as has a zero amount and no urls |
| Stats.UrlsInSpec | apps/collector/commands/stats.ts:91 | A url belongs to a category exactly when some row has it and it reads as that category |
| Stats.EntriesOfPointwise | apps/collector/commands/stats.ts:94-100 | One entry per category, in category order |
| Stats.EntriesSnoc | apps/collector/commands/stats.ts:100 | The entry of one more category follows the earlier entries |
| Stats.SumsSnoc | apps/collector/commands/stats.ts:136 | The sums over one more entry grow by that entry's total and count |
| Stats.DistinctInit | apps/collector/commands/stats.ts:80-87 | Without its last category a distinct list stays distinct and lacks that category |
| Stats.TotalsShift | apps/collector/commands/stats.ts:90 | When one category's amount grows by t, the sum of the listed totals grows by t when that category is listed |
| Stats.AddedUrlCount | apps/collector/commands/stats.ts:91 | Adding a url to a set grows its size by one exactly when the url is new |
| Stats.AppCountsShift | apps/collector/commands/stats.ts:91-96 | When one category gains a url, the sum of the listed counts grows by one exactly when the url is new to it |
| Stats.TotalsAddUp | apps/collector/commands/stats.ts:73-91 | The per-category totals add up to the sum of the parsed amounts over all rows |
| Stats.CountsGrowth | apps/collector/commands/stats.ts:91-96 | The last row grows the summed counts by one exactly when its url is new to its category |
| Stats.AllUrlsGrowth | apps/collector/commands/stats.ts:91 | The last row grows the distinct url count by one exactly when its url is new |
| Stats.AppCountsAddUp | apps/collector/commands/stats.ts:85-97 | Because each url reads as one category, the per-category counts add up to the number of distinct urls |
| Stats.HoldsAfterNew | apps/collector/commands/stats.ts:80-87 | Creating an empty entry for a new category keeps the map matching the figures |
| Stats.HoldsAfterRow | apps/collector/commands/stats.ts:89-91 | Adding a row's amount and url to its category's entry keeps the map matching the figures |
| Stats.AddRow | apps/collector/commands/stats.ts:75-92 | One loop pass: the key order, the entries and the running total match the figures of the rows so far |
| Stats.AggregateByCategory | apps/collector/commands/stats.ts:71-92 | After the loop the key order is the categories in first-seen order, each entry holds its category's figures, and the total is the sum of the parsed amounts |
| Stats.FillAppCounts | apps/collector/commands/stats.ts:94-97 | Setting the counts makes every entry's count the number of its distinct urls |
| Stats.CountedValues | apps/collector/commands/stats.ts:94-100 | The values in key order are the category entries in first-seen order |
| Stats.InsertByTotalKeeps | apps/collector/commands/stats.ts:100-101 | Inserting an entry adds exactly that entry, so both sums grow by its figures |
| Stats.InsertByTotalSorted | apps/collector/commands/stats.ts:100-101 | Inserting into a list sorted by descending total keeps it sorted |
| Stats.SortByTotalSpec | apps/collector/commands/stats.ts:100-101 | The sorted list is ordered by descending total and is a permutation of the input, with the same sums |
| Stats.SumsOfCons | apps/collector/commands/stats.ts:136 | The sums over a list are its head's figures plus the sums over its tail |
| Stats.Tabulate | apps/collector/commands/stats.ts:63-101 | The sorted entries are the report figures, and the total is the sum of the parsed amounts |
| Stats.FiguresAddUp | apps/collector/commands/stats.ts:99-136 | The report is sorted by descending total, is a permutation of the entries, its totals add up to the overall total, and its counts add up to the distinct url count |
| Stats.EntriesOfMembers | apps/collector/commands/stats.ts:94-100 | An entry is listed exactly when it is the entry of a listed category |
| Stats.FiguresAreEntries | apps/collector/commands/stats.ts:71-101 | A report line is exactly the entry of some category a row reads as |
| Stats.HandleStatsCommand | apps/collector/commands/stats.ts:32-152 | No batch gives NoBatches; a latest batch without rows gives NoUsage; otherwise the report of that batch's rows, sorted, with totals and counts that add up |

## Left out

- Browser automation and model-backed page extraction are left out because they are foreign calls. Their outcomes are the inputs `fetch` and `extract`, and the instruction texts are not modelled. This covers `collectUsageForModel` (`batch-collect.ts:63-85`) and `extractAppCategory` (`batch-apps.ts:58-78`).
- `extractAppDescription` (`batch-apps.ts:33-56`) is never called by the command, so no description is ever written.
- `apps.ts` and `handleUsageCommand` are not part of this model: they are extraction plus file output.
- The command line in `index.ts`, the database connection in `db/index.ts`, the query builder, and every debug log are left out as I/O.
- Concurrency is left out. Each chunk of five runs as a sequential map in input order, and nothing is claimed about interleavings or about chunk timing.
- Store failures are not modelled, except for the per-row category write in `batch-apps`. A failing insert or select would abort `batch-collect`.
- The browser session failing to start is not modelled. `batch-collect.ts:109` starts it after the batch insert at `:101`, so such a failure leaves an empty batch, which `stats` then reports as having no usage.
- Row order of the selects is assumed to be insertion order. The selects at `batch-collect.ts:97` and `:159`, `batch-apps.ts:86`, and `stats.ts:52-54` and `:64` have no ORDER BY, so Postgres promises no order. The model reads `models`, `apps` and `history` in insertion order. That order decides which listing's name and amount the first-seen dedup keeps, and the order that tied totals keep after the sort.
- Run durations and the conversion of `Date.now()` are left out.
- Usage.CollectUsage: the JSON text and the file write are not modelled; only the converted listing and the file name are.
- BatchApps.HandleBatchAppsCommand: one clock reading `now` is used for every update, whereas the code reads the clock once per update.
- TokenAmount.RoundHalfUp: `parseFloat` and `Math.round` are idealised as exact decimal arithmetic with half-up rounding. Floating-point error on long fractions and doubles above 2^53 are not modelled.
- TokenAmount.GroupedHasLayout: `toLocaleString` is fixed to en-US comma grouping; other locales are not modelled.
- TokenParse.ParseIntOf: `parseInt` is exact on unbounded integers, so precision loss above 2^53 is not modelled.
- Stats.HandleStatsCommand: the table rendering, the `toFixed(2)` percentages, the batch date, and the "models included" line are left out as display only.
- Store.Database.constructor: `app_usage_history` in `schema.ts` has an `appId` column and no name, url or model columns, and `collect_batch.totalAppsCollected` is declared not null, yet `batch-collect.ts` never supplies those values. The store keeps the columns the code actually writes, and batch rows carry only their id.
- Stats.SortByTotalSpec: `Array.prototype.sort` with a comparator is modelled by a stable insertion sort, a function that gives the result a stable engine sort gives; no in-place array algorithm is modelled.
