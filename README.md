# kona2.0 scraper pipeline: a Dafny model

kona2.0 watches a car-listing site (AutoScout24 Hungary). Four components share one database:

- the **entry scraper** polls a result page and stores each listing it has not seen before;
- the **spec scraper** takes the oldest un-crawled listing and fetches its detail page. It turns the page into a spec and a `(make, model, age)` category, recomputes the category's price statistics and queues a work item;
- the **notification manager** claims the first queued item, deletes it and hands the joined record to every notifier;
- the **mailer's alert filter** decides which users' alerts a vehicle satisfies.

This project models the decision logic of these components. HTTP responses and the texts selected from HTML pages are inputs. Each database table is a map or a sequence in a `Tables` value.

Modules, one per source file:

- `Utils` models `src/utils/utils.ts`: the rounded average, the repository's median rule, and the bounded interval adjustments `speedUp` and `slowDown`. Intervals are integer tenths of a minute. Steps are integer hundredths of a minute. `Math.round` is exact half-up rounding.
- `Database` models the tables of the migration `create_base_tables`, including the unique `platform_id`. `Store` is a class with one field per table. Each of its methods is one knex statement, specified by a pure function on `Tables`.
- `SpecScraperModel` models `src/models/spec-scraper.model.ts`. `Cycle` is one round of `runScraper` as a function of the state, the fetch result and the platform's `processData`. The class `SpecScraper` performs that round step by step. `RunScraper` is proved to equal `Cycle`.
- `EntryScraperModel` models `src/models/entry-scraper.model.ts`: the insert-if-absent loop of `saveData`, the `count` field and `tweakSpeed`.
- `Notifications` models `src/notifications/notification-manager.ts`: `findWork`, `removeFromQueue` and one round of `processNotifications`.
- `AmazonSesMailer` models the `checkAlerts` filter predicate of `src/notifications/amazon-ses-mailer.ts`. `Matches` follows the JavaScript truthiness tests clause by clause. `Constraints` is an independent reading of an alert as a list of conditions. The two are proved equivalent.
- `AutoscoutSpecScraper` models the field rules of the detail-page adapter `src/autoscout/autoscout.specscraper.ts`.
- `AutoscoutEntryScraper` models the result-page adapter `src/autoscout/autoscout.entryscraper.ts`. Its `ProcessData` loop builds the response front-first, as `unshift` does.
- `Text` holds the JavaScript string built-ins these rely on: `/\d+/g`, `split`/`join`, `trim`, `includes`, `String` and `Number`.
- `Interfaces` holds the record shapes of `src/interfaces/interfaces.ts`.
- `Wrappers` holds `Option`.

## Behaviour as written

The model follows the code in these places, where the code differs from what its names or comments suggest:

- `removeEntry` marks the listing `crawled = true`; it does not delete it.
- `errorCount` is never reset after a successful cycle. It is reset only when it reaches `maxErrorCount`, so errors are counted in total, not consecutively.
- A fetch failure other than 404/410 only slows the scraper down. It does not count as an error.
- The median always averages `sorted[floor(n/2)]` and `sorted[floor(n/2)+1]`. So `[10, 20, 30]` gives 25, and the median needs at least three prices.
- The notification manager never shortens its interval after finding work. It sets two minutes (in milliseconds) when idle and otherwise keeps its value.
- `findWork` leaves the claimed row claimed when its spec cannot be joined with a category.
- `kw` is `Number` of the whole match array. That is the number for exactly one match, NaN (so 0) for several matches, and 0 for none.
- A registration key fact without any number makes `match(...)!` null, and indexing it throws. Likewise a displacement label without a number throws on `.join`.
- A price heading without a number, or a contact line whose first token is not a number, gives NaN. The `carspec` insert rejects NaN in its integer `price` and `zipcode` columns (src/database/migrations/20201211163632_create_base_tables.ts:23, :30), so `saveProcessed` throws. The cycle then counts an error instead of saving. The category row that `getTypeId` inserted before the failed insert stays.
- The `carlist` insert writes a `link` column, while the migration names that column `url`. The model keeps `link`, as the code does.

## Model

| member | source | states |
|---|---|---|
| Utils.RoundDiv | src/utils/utils.ts:9 | `Math.round(num / den)` is the integer nearest the quotient, halves rounded up |
| Utils.CalculateAverage | src/utils/utils.ts:8-10 | the average is `sum / n` rounded half up and lies between the least and the greatest price; needs a non-empty sample, as `reduce` without an initial value does |
| Utils.AverageIgnoresOrder | src/utils/utils.ts:8-10 | reordering the prices does not change the average |
| Utils.AverageExample | src/utils/utils.ts:8-10 | `[10, 20, 30]` averages to 20 |
| Utils.SortAscending | src/utils/utils.ts:13 | the sorted copy is in ascending order and is a permutation of the input; the input is a value and is left unchanged |
| Utils.SortSorted | src/utils/utils.ts:13 | sorting an ascending sample returns it unchanged |
| Utils.SortedUnique | src/utils/utils.ts:13 | two ascending permutations of one sample are equal, so the sort's result is determined by the sample |
| Utils.CalculateMedian | src/utils/utils.ts:12-17 | the median lies between `sorted[n/2]` and `sorted[n/2+1]`; needs at least three prices |
| Utils.MedianOfSorted | src/utils/utils.ts:14-16 | on a sorted sample the median is `round((s[n/2+1] + s[n/2]) / 2)`, for odd and even `n` alike |
| Utils.MedianWithinSample | src/utils/utils.ts:13-16 | the median lies between the least and the greatest price |
| Utils.MedianIgnoresOrder | src/utils/utils.ts:13-16 | reordering the prices does not change the median |
| Utils.ThreePriceMedianExample | src/utils/utils.ts:14-16 | `[10, 20, 30]` has median 25 by this rule |
| Utils.FourPriceExample | src/utils/utils.ts:14-16 | `[10, 20, 30, 40]` has median 35 by this rule |
| Utils.SpeedUp | src/utils/utils.ts:19-23 | the result is never below `minTime`; above it, it is `currentTime - amount` rounded to the nearest tenth |
| Utils.SpeedUpShortens | src/utils/utils.ts:19-23 | from at or above the floor, speeding up never lengthens the interval, and an interval at the floor stays there |
| Utils.SlowDown | src/utils/utils.ts:25-28 | at or above `maxTime` the result is exactly `maxTime`; below it, `currentTime + amount` rounded to the nearest tenth |
| Utils.SlowDownOvershoot | src/utils/utils.ts:25-28 | the result exceeds `maxTime` only when the step is larger than the distance left; with a step of at most 0.1 it never does |
| Utils.SlowDownOvershootExample | src/utils/utils.ts:26 | from 2.4 towards 2.5 minutes in steps of 0.25 the result is 2.7 |
| Utils.SlowDownLengthens | src/utils/utils.ts:25-28 | below the ceiling, slowing down never shortens the interval |
| Database.EmptyTables | src/database/migrations/20201211163632_create_base_tables.ts:4-42 | the empty database satisfies the invariant: unique platform ids and categories, ids below their sequences |
| Database.FirstKey | src/models/spec-scraper.model.ts:124-129 | `.where(p).orderBy('id').first()` returns the least id whose row satisfies `p`, or nothing when no row does |
| Database.FirstKeyFindsOnly | src/models/spec-scraper.model.ts:140-143 | when exactly one row satisfies the condition, `.first()` returns it |
| Database.SpecsOfTypes | src/models/spec-scraper.model.ts:244-248 | the `where`/`orWhere` query returns exactly the spec rows whose category is one of the ids |
| Database.WithCrawled | src/models/spec-scraper.model.ts:132-137 | only the `crawled` flag of the row with that id changes, to true; every other row and table is unchanged |
| Database.Claimed | src/notifications/notification-manager.ts:61-66 | the update sets `working` on the rows of that id only and keeps the rows and their order |
| Database.WithoutWork | src/notifications/notification-manager.ts:47 | the delete removes exactly the rows of that id |
| Database.DeleteAfterClaim | src/notifications/notification-manager.ts:41-66 | deleting an item after claiming it is the same as deleting it outright |
| Database.DeleteKeepsOthers | src/notifications/notification-manager.ts:47 | deleting one item leaves every other item's rows as they were, in order |
| Database.ClaimKeepsOthers | src/notifications/notification-manager.ts:61-66 | claiming one item leaves every other item's rows as they were, in order |
| Database.Store.constructor | src/database/migrations/20201211163632_create_base_tables.ts:4-42 | a new database is empty |
| Database.Store.MarkCrawled | src/models/spec-scraper.model.ts:132-137 | the tables become `WithCrawled` of the old tables |
| Database.Store.InsertListing | src/models/entry-scraper.model.ts:51-55 | a new `carlist` row with the next id, not crawled |
| Database.Store.InsertType | src/models/spec-scraper.model.ts:154-159 | a new `cartype` row; the id returned is the one it received |
| Database.Store.InsertSpec | src/models/spec-scraper.model.ts:182 | a new `carspec` row holding the spec and its category id |
| Database.Store.UpsertStats | src/models/spec-scraper.model.ts:219-223 | the category's statistics row is inserted or replaced |
| Database.Store.InsertWork | src/models/spec-scraper.model.ts:196 | a new `working_queue` row with `working = false` |
| Database.Store.ClaimWork | src/notifications/notification-manager.ts:61-66 | the queue becomes `Claimed` of the old queue; nothing else changes |
| Database.Store.DeleteWork | src/notifications/notification-manager.ts:47 | the queue becomes `WithoutWork` of the old queue; nothing else changes |
| EntryScraperModel.SaveItem | src/models/entry-scraper.model.ts:44-56 | an item is inserted exactly when no listing with its platform id is stored; otherwise nothing changes |
| EntryScraperModel.SaveBatchKeepsValid | src/models/entry-scraper.model.ts:43-57 | after `saveData` at most one listing exists per platform id, even when the batch repeats an id |
| EntryScraperModel.SaveBatchOnlyInserts | src/models/entry-scraper.model.ts:43-57 | stored listings are never modified or removed, other tables are untouched, and the new rows occupy exactly the next `n` ids, where `n` is the reported count |
| EntryScraperModel.SaveBatchStoresEveryItem | src/models/entry-scraper.model.ts:43-57 | afterwards every item's platform id is stored |
| EntryScraperModel.DuplicateInBatch | src/models/entry-scraper.model.ts:43-57 | a batch holding the same listing twice inserts it at most once and counts it at most once |
| EntryScraperModel.Tweaked | src/models/entry-scraper.model.ts:62-64 | with at most five new listings the interval grows towards 15 minutes (exactly 15 once there); with more it shrinks but stays at least 0.5 |
| EntryScraperModel.EntryCycleKeepsValid | src/models/entry-scraper.model.ts:18-31 | a cycle keeps the database valid; a successful cycle ends with `count` 0; a failed one leaves `sleepTime` unchanged |
| EntryScraperModel.EntryScraper.constructor | src/models/entry-scraper.model.ts:13-16 | the counter starts at 0 |
| EntryScraperModel.EntryScraper.SaveData | src/models/entry-scraper.model.ts:42-60 | the loop leaves the tables as `SaveBatch` says and adds its insertion count to `count` |
| EntryScraperModel.EntryScraper.TweakSpeed | src/models/entry-scraper.model.ts:62-67 | `sleepTime` becomes `Tweaked(sleepTime, count)` and `count` becomes 0 |
| EntryScraperModel.EntryScraper.RunScraper | src/models/entry-scraper.model.ts:18-31 | one cycle changes the tables and fields exactly as `EntryCycle` says |
| SpecScraperModel.EntryToScrape | src/models/spec-scraper.model.ts:122-130 | the un-crawled listing of the platform with the least id, or nothing when there is none |
| SpecScraperModel.TypeLookupFinds | src/models/spec-scraper.model.ts:140-143 | with unique categories, the look-up finds the stored row of the category |
| SpecScraperModel.TypeIdFor | src/models/spec-scraper.model.ts:139-174 | the returned id names a row holding the category, and the tables are either unchanged or gain exactly that row |
| SpecScraperModel.TypeIdForKeepsValid | src/models/spec-scraper.model.ts:139-174 | categories stay unique, and a row is inserted exactly when the category was missing |
| SpecScraperModel.TypeIdForIdempotent | src/models/spec-scraper.model.ts:139-174 | asking twice gives the same id and inserts nothing the second time |
| SpecScraperModel.Prices | src/models/spec-scraper.model.ts:250 | one price per pooled spec, a missing price counting as 0 |
| SpecScraperModel.PricesForType | src/models/spec-scraper.model.ts:226-252 | a sample is returned exactly when the category is known and its pool holds at least five specs; it then holds at least five prices |
| SpecScraperModel.InPoolIds | src/models/spec-scraper.model.ts:234-243 | a category is pooled exactly when it has the same make and model and is at most a year apart |
| SpecScraperModel.PoolIsNeighbours | src/models/spec-scraper.model.ts:234-248 | the sample collected through the looked-up ids is exactly the specs of every neighbouring category, in table order |
| SpecScraperModel.WithUpdatedStats | src/models/spec-scraper.model.ts:199-224 | only the category's own statistics row can change; every other table and row is unchanged |
| SpecScraperModel.StatsThreshold | src/models/spec-scraper.model.ts:199-252 | with fewer than five specs among the category and its neighbours one year older or newer, the tables are unchanged; with five or more, the category's row becomes the average and the median of their prices |
| SpecScraperModel.StatsWithinSample | src/models/spec-scraper.model.ts:205-221 | with a sample, the row is written, and its average and median lie between the cheapest and the dearest pooled price |
| SpecScraperModel.IdleCycle | src/models/spec-scraper.model.ts:27-36 | with nothing to scrape the database is unchanged and `sleepTime` becomes `slowDown(sleepTime, 2.5)` |
| SpecScraperModel.GoneCycle | src/models/spec-scraper.model.ts:101-106 | on 404 or 410 the tables become `WithCrawled` of the old tables, so only the listing's `crawled` flag changes; interval and error count are kept |
| SpecScraperModel.SaveAllWrites | src/models/spec-scraper.model.ts:41-44 | the saves of a parsed page: the category is stored, the spec appended under it, the listing marked crawled with every other listing unchanged, and one unclaimed work item appended |
| SpecScraperModel.SaveAllStats | src/models/spec-scraper.model.ts:41-44 | on a valid database, the statistics written after the spec is saved follow the five-spec threshold over the category and its neighbours |
| SpecScraperModel.SavedCycle | src/models/spec-scraper.model.ts:39-46 | a parsed page whose spec the database accepts stores the spec under its category, marks the listing and queues one work item; every other listing is unchanged; on a valid database the statistics follow the five-spec threshold of `StatsThreshold`; `sleepTime` becomes `speedUp(sleepTime, 0.2, 0.25)` |
| SpecScraperModel.RejectedSpecCycle | src/models/spec-scraper.model.ts:39-82 | a parsed spec with a NaN price or zipcode makes the insert throw: only the category row looked up or inserted before it stays, no spec, statistics or work item is written, the interval is kept, and the error is counted; below the limit the listing stays un-crawled, at the limit it is marked crawled and the count resets |
| SpecScraperModel.ErrorCycle | src/models/spec-scraper.model.ts:55-82 | an exception counts one error and retries below the limit; at the limit the oldest un-crawled listing is marked crawled and the count resets to 0 |
| SpecScraperModel.ErrorCountBelowLimit | src/models/spec-scraper.model.ts:61-81 | once below `maxErrorCount`, the error count stays below it |
| SpecScraperModel.SaveAllKeepsValid | src/models/spec-scraper.model.ts:41-45 | the writes of a successful cycle keep the database valid |
| SpecScraperModel.CycleKeepsValid | src/models/spec-scraper.model.ts:25-84 | every cycle keeps the database valid |
| SpecScraperModel.SpecScraper.constructor | src/models/spec-scraper.model.ts:17-23 | the error count starts at 0 |
| SpecScraperModel.SpecScraper.FindEntryToScrape | src/models/spec-scraper.model.ts:122-130 | returns `EntryToScrape` of the current tables |
| SpecScraperModel.SpecScraper.RemoveEntry | src/models/spec-scraper.model.ts:132-137 | marks the listing crawled, as `WithCrawled` |
| SpecScraperModel.SpecScraper.GetTypeId | src/models/spec-scraper.model.ts:139-174 | the tables and the id become `TypeIdFor` of the old tables |
| SpecScraperModel.SpecScraper.SaveProcessed | src/models/spec-scraper.model.ts:176-188 | with a spec the database accepts, inserts the spec row, then marks its listing crawled; with a NaN price or zipcode, reports the failed insert and writes nothing |
| SpecScraperModel.SpecScraper.UpdateQueue | src/models/spec-scraper.model.ts:190-197 | inserts one work item with the spec id |
| SpecScraperModel.SpecScraper.GetAllPricesForType | src/models/spec-scraper.model.ts:226-252 | returns `PricesForType` of the current tables |
| SpecScraperModel.SpecScraper.UpdateAvgMedianPrices | src/models/spec-scraper.model.ts:199-224 | the tables become `WithUpdatedStats` of the old tables |
| SpecScraperModel.SpecScraper.SlowDown | src/models/spec-scraper.model.ts:261-263 | `sleepTime` becomes `slowDown(sleepTime, 2.5)` |
| SpecScraperModel.SpecScraper.SpeedUp | src/models/spec-scraper.model.ts:265-267 | `sleepTime` becomes `speedUp(sleepTime, 0.2, 0.25)` |
| SpecScraperModel.SpecScraper.ResetErrorCount | src/models/spec-scraper.model.ts:269-271 | `errorCount` becomes 0 |
| SpecScraperModel.SpecScraper.HandleError | src/models/spec-scraper.model.ts:55-83 | the `catch` block changes the state as `AfterError` says |
| SpecScraperModel.SpecScraper.RunScraper | src/models/spec-scraper.model.ts:25-84 | one cycle changes the tables and fields exactly as `Cycle` says |
| Notifications.FirstUnclaimed | src/notifications/notification-manager.ts:51-54 | the first row with `working = false`, or nothing when every row is claimed |
| Notifications.SpecOf | src/notifications/notification-manager.ts:69-72 | a spec row with the id, or nothing when none has it |
| Notifications.JoinPayload | src/notifications/notification-manager.ts:69-87 | a record exists exactly when the item has a spec row whose category is stored; it then carries every spec column but the city, the spec row's category id, and that category's make, model and age |
| Notifications.ClaimFirst | src/notifications/notification-manager.ts:50-91 | without an unclaimed row nothing changes and nothing is returned; otherwise every row of the first unclaimed row's item becomes claimed, the others keep their flags, and the result is that item's joined record; only the queue changes |
| Notifications.StepDeletesItem | src/notifications/notification-manager.ts:29-31 | a round that finds work deletes that item's rows, keeps every other row in order, changes no other table and keeps `sleepTime` |
| Notifications.StepNotifiesEach | src/notifications/notification-manager.ts:31 | every notifier is called exactly once, in list order, with the same record |
| Notifications.IdleStep | src/notifications/notification-manager.ts:22-28 | without an unclaimed row nothing is deleted or sent and `sleepTime` becomes 120000 |
| Notifications.UnjoinableItemStaysClaimed | src/notifications/notification-manager.ts:22-28 | an item that cannot be joined is claimed and never delivered: nothing is sent, `sleepTime` becomes 120000, and its row stays in the queue claimed |
| Notifications.TwoItemsExample | src/notifications/notification-manager.ts:19-39 | with two unclaimed items, one round leaves exactly the second item's row, still unclaimed |
| Notifications.NotificationManager.constructor | src/notifications/notification-manager.ts:10-17 | `sleepTime` starts at 2 |
| Notifications.NotificationManager.RemoveFromQueue | src/notifications/notification-manager.ts:41-48 | deletes the item's rows and nothing else |
| Notifications.NotificationManager.FindWork | src/notifications/notification-manager.ts:50-91 | the tables and the result become `ClaimFirst` of the old tables |
| Notifications.NotificationManager.Notify | src/notifications/notification-manager.ts:31 | one delivery per notifier, in list order |
| Notifications.NotificationManager.ProcessNotifications | src/notifications/notification-manager.ts:19-39 | one round changes the tables and `sleepTime` and sends notifications exactly as `Step` says |
| AmazonSesMailer.FourDigitRegion | src/notifications/amazon-ses-mailer.ts:83 | a four-digit zipcode's region is its first two digits |
| AmazonSesMailer.MaxPiece | src/notifications/amazon-ses-mailer.ts:87-137 | an upper-bound condition holds exactly when the original clause does: unset bounds pass, and a set bound fails on a missing or 0 reading |
| AmazonSesMailer.MinPiece | src/notifications/amazon-ses-mailer.ts:88-138 | the same for lower bounds |
| AmazonSesMailer.TextPiece | src/notifications/amazon-ses-mailer.ts:119-143 | a fuel, transmission or make condition holds exactly when the original clause does |
| AmazonSesMailer.MatchesIffConstraints | src/notifications/amazon-ses-mailer.ts:84-152 | the filter predicate holds exactly when the vehicle satisfies every condition the alert sets |
| AmazonSesMailer.UnconstrainedMatchesAll | src/notifications/amazon-ses-mailer.ts:84-152 | an alert that sets nothing matches every vehicle |
| AmazonSesMailer.ZeroIsUnset | src/notifications/amazon-ses-mailer.ts:85-148 | every numeric bound of 0 and every text of "" sets no condition; the zip list is not covered, because an empty list is itself a condition |
| AmazonSesMailer.FailClosed | src/notifications/amazon-ses-mailer.ts:89-148 | a set ccm, km, kw, price, fuel, transmission, make or model condition rejects a vehicle whose field is missing or falsy |
| AmazonSesMailer.InclusiveRange | src/notifications/amazon-ses-mailer.ts:86-138 | a range matches exactly a usable reading with `min <= value <= max` |
| AmazonSesMailer.EmptyContainsNothing | src/notifications/amazon-ses-mailer.ts:144-148 | an empty vehicle model contains no non-empty alert model |
| AmazonSesMailer.ZipListNeedsRegion | src/notifications/amazon-ses-mailer.ts:83-86 | a zip list matches no vehicle when the list is empty or the vehicle has no zipcode |
| AmazonSesMailer.Filter | src/notifications/amazon-ses-mailer.ts:84 | the result holds exactly the elements that pass, and is no longer than the input |
| AmazonSesMailer.FilterAppend | src/notifications/amazon-ses-mailer.ts:84 | filtering a concatenation is filtering each part, in order |
| AmazonSesMailer.CheckAlerts | src/notifications/amazon-ses-mailer.ts:84-152 | an alert is in the result exactly when it is in the list and matches |
| AmazonSesMailer.CheckAlertsKeepsOrder | src/notifications/amazon-ses-mailer.ts:84 | the result is a sub-list in list order |
| AmazonSesMailer.CheckOneAlert | src/notifications/amazon-ses-mailer.ts:84-152 | a single alert is kept exactly when it matches |
| AutoscoutSpecScraper.AgeOf | src/autoscout/autoscout.specscraper.ts:25-30 | the year fails exactly when the key fact has no number |
| AutoscoutSpecScraper.RegistrationYear | src/autoscout/autoscout.specscraper.ts:25-30 | a key fact `month/year` gives the year |
| AutoscoutSpecScraper.KmIsDigits | src/autoscout/autoscout.specscraper.ts:37-44 | with two or more numbers the mileage is the text's digits read as one number; otherwise 0 |
| AutoscoutSpecScraper.KmOfGroupedThousands | src/autoscout/autoscout.specscraper.ts:37-44 | `125 000` reads as 125000 |
| AutoscoutSpecScraper.KwOf | src/autoscout/autoscout.specscraper.ts:46-54 | the power is 0 unless the text holds exactly one number, and never negative |
| AutoscoutSpecScraper.FuelOf | src/autoscout/autoscout.specscraper.ts:56-85 | a fuel is given exactly when the label is present, and it is `Dízel`, `Benzin` or the trimmed label |
| AutoscoutSpecScraper.OneFuelLabel | src/autoscout/autoscout.specscraper.ts:56-85 | a single-fuel label is `Dízel` when it is a diesel name, otherwise `Benzin` when it is a petrol name, otherwise itself, trimmed |
| AutoscoutSpecScraper.TwoFuelLabel | src/autoscout/autoscout.specscraper.ts:56-85 | a label `p/q` is diesel when either side is a diesel name, and otherwise petrol when either side is a petrol name |
| AutoscoutSpecScraper.TransmissionOf | src/autoscout/autoscout.specscraper.ts:87-100 | `Sebességváltó` gives `Manuális`; any other label is kept trimmed; no label gives nothing |
| AutoscoutSpecScraper.CcmOf | src/autoscout/autoscout.specscraper.ts:102-114 | with a label, the displacement is all its digits read as one number; without one, nothing |
| AutoscoutSpecScraper.PriceOf | src/autoscout/autoscout.specscraper.ts:116-118 | the price is all digits of the heading read as one number; NaN exactly when there is none |
| AutoscoutSpecScraper.PriceOnRequestRetries | src/autoscout/autoscout.specscraper.ts:116-118 | a parsed page whose price heading holds no number is not saved: below the error limit the cycle counts an error, stores no spec and leaves the listing un-crawled |
| AutoscoutSpecScraper.ZipcodeBeforeCity | src/autoscout/autoscout.specscraper.ts:125-127 | a contact line `n city` gives zipcode `n` |
| AutoscoutSpecScraper.ProcessData | src/autoscout/autoscout.specscraper.ts:11-147 | the page throws exactly without a year number, or with a number-free displacement label on an otherwise complete page; it is dropped exactly when the year is 0 or make or model is empty; a parsed spec carries the listing id, a non-empty make and model and a positive year |
| AutoscoutSpecScraper.ParsedFields | src/autoscout/autoscout.specscraper.ts:129-146 | every field of every parsed spec follows its rule, whatever the registration key fact looks like |
| AutoscoutSpecScraper.ParsedYear | src/autoscout/autoscout.specscraper.ts:25-30 | a parsed page whose registration key fact is `month/year` is filed under that year |
| AutoscoutSpecScraper.ParsedPageMarksPicked | src/models/spec-scraper.model.ts:39-46 | in the shared cycle with this adapter, a parsed page with a price and a numeric zipcode marks the listing picked for scraping crawled and stores its spec under that listing's id; an interval of 0.2 minutes stays there |
| AutoscoutEntryScraper.PlatformIdAfterFirstDash | src/autoscout/autoscout.entryscraper.ts:28-29 | the platform id is everything after the first `-`, so `x-a-b` gives `a-b` |
| AutoscoutEntryScraper.PlatformIdWithoutDash | src/autoscout/autoscout.entryscraper.ts:28-29 | an element id without `-` gives the empty platform id |
| AutoscoutEntryScraper.LinkOf | src/autoscout/autoscout.entryscraper.ts:30-32 | every link starts with `/ajanlat/` |
| AutoscoutEntryScraper.LinkOfPath | src/autoscout/autoscout.entryscraper.ts:30-32 | an `href` `/a/b` or `/a/b/...` gives `/ajanlat/b` |
| AutoscoutEntryScraper.EntryOf | src/autoscout/autoscout.entryscraper.ts:28-38 | an element gives a listing exactly when it has both attributes, and the listing is on the platform |
| AutoscoutEntryScraper.Entries | src/autoscout/autoscout.entryscraper.ts:24-44 | a response has one listing per element |
| AutoscoutEntryScraper.EntriesFail | src/autoscout/autoscout.entryscraper.ts:27-32 | the response fails exactly when some element lacks an attribute |
| AutoscoutEntryScraper.EntriesReversed | src/autoscout/autoscout.entryscraper.ts:40 | the response is in reverse document order: position `k` holds the listing of element `n-1-k` |
| AutoscoutEntryScraper.EntriesOnPlatform | src/autoscout/autoscout.entryscraper.ts:34-38 | every listing has `platform == platformUrl` |
| AutoscoutEntryScraper.ProcessData | src/autoscout/autoscout.entryscraper.ts:24-44 | the loop returns exactly `Entries` of the elements |
| Text.DigitRuns | src/autoscout/autoscout.specscraper.ts:12 | the matches of `/\d+/g` are non-empty digit strings |
| Text.DigitRunsConcat | src/autoscout/autoscout.specscraper.ts:43 | joining the matches gives exactly the digits of the text |
| Text.TwoRuns | src/autoscout/autoscout.specscraper.ts:12 | two numbers separated by one non-digit are matched as exactly those two |
| Text.JoinSplit | src/autoscout/autoscout.entryscraper.ts:28-29 | joining the pieces of a split with the same separator restores the text |
| Text.SplitJoin | src/autoscout/autoscout.entryscraper.ts:28-29 | splitting a join of separator-free pieces gives the pieces back |
| Text.ContainsIff | src/notifications/amazon-ses-mailer.ts:146 | `includes` holds exactly when the needle occurs at some position |
| Text.NumberOfDecimalString | src/autoscout/autoscout.specscraper.ts:125-127 | `Number(String(n))` is `n` |
| Text.DecimalRoundTrip | src/notifications/amazon-ses-mailer.ts:83 | a natural number's decimal digits read back as the number |

## Left out

- HTTP requests, HTML parsing with cheerio, timers (`Utils.sleep`) and logging. The fetch result and the texts a selector returns are inputs.
- The self-recursion of `runScraper` and `processNotifications`. One cycle is modelled, as a step.
- Sending e-mail through SES: `mailIt`, the HTML template, currency formatting, the user e-mail look-up, `getAlertList` and `getAveragePrices`.
- Notifications.FirstUnclaimed: takes the earliest unclaimed row in queue order. The query has no `orderBy`, so the database may return any unclaimed row.
- Concurrency. The un-awaited `removeFromQueue` and notifier calls are modelled as running in order. Deliveries record which notifier received which record.
- The `runScraper` and `saveData` overrides of the AutoScout entry adapter. Their `forEach(async ...)` inserts run concurrently, and they call methods the base class does not show.
- Sleep durations. No duration is modelled, including the sleep after the error limit, which passes minutes where milliseconds are expected (src/models/spec-scraper.model.ts:80).
- Database failures other than the rejected spec row. Connection errors and constraint violations are not modelled; the one failure that realistic pages cause, a NaN price or zipcode, is (see `SpecScraperModel.Insertable`).
- The 32-bit range of the `integer` columns. A price, displacement, mileage, power, zipcode or year beyond it would make its insert throw; the model's integers are unbounded.
- Floating point. Intervals are exact integer tenths of a minute, and prices are integers.
- Text.ToNumber: reads decimal integers only. Hexadecimal, exponents, decimal points and `Infinity` are outside the texts these adapters pass to `Number`.
- Utils.CalculateAverage: requires a non-empty sample, where the source throws; every caller passes at least five prices.
- Utils.CalculateMedian: requires at least three prices, where the source yields NaN; every caller passes at least five.
- AutoscoutSpecScraper.CcmOf: requires a number in the label. A label without one throws in the source, and `ProcessData` models that as an exception.
- AutoscoutEntryScraper.Entries: states only the length. The contents and the order are stated by `EntriesFail` and `EntriesReversed`.
- AutoscoutSpecScraper.KwOf: states the zero cases and the sign. The exactly-one-match value is its definition, `DecimalValue` of that match.
- Configuration, singletons and bootstrap (`knexfile.ts`, the database singletons, `src/configs/aws.ts`, `src/index.ts`) are not part of this model.
