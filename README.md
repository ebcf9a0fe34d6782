# emiigen core, modelled in Dafny

emiigen is a Django site with two applications and a small browser script.

- **APOD** stores NASA's Astronomy Picture of the Day, one row per date. Three routes fetch pictures from NASA's API: a shared fetch-and-store routine behind the web terminal, the `fetch_apod` command, and four periodic tasks (latest picture, update check, archive backfill, week-old log purge). The application also keeps celestial coordinates, keyed by (name, body), and a system log. The log's admin screen allows deletion only.
- **GIBS** keeps NASA GIBS visualization layers keyed by `layer_id`, "Image of the Week" entries and per-session map configurations. It builds tile and WMTS addresses and day-by-day date lists, and reads the layer list of the WMTS capabilities document. It has layer search, a catalog and month navigation. Its commands fill the layer table (`fetch_gibs_layers`, `fetch_gibs_tiles`) and seed sample entries (`seed_sample_images`).
- **`TileImageLoader`** (in `static/js/main.js`) does integer tile arithmetic for a zoomable image. It keeps a set of tile ids already requested and lists the tiles a viewport covers.

How the model is built:

- Each table is a Dafny `map` from its unique key to a record. Tables whose lookup key is not unique in the schema are sequences in insertion order: week images by title, configurations by session.
- The database of each application is a class whose fields the ORM operations reassign. `Tables()` returns a snapshot of those fields.
- Every loop of the source is a `method` with a `while` loop. Its `ensures` ties the new snapshot to a specification function of the old one, and the properties the source promises are lemmas about those functions.
- NASA's answers, the current time and random draws are inputs. Python dates are proleptic Gregorian dates with day numbers, limited to years 1 to 9999.

One module per source file:

| module | source |
|---|---|
| `ApodModels` | apod/models.py |
| `ApodAdmin` | apod/admin.py |
| `ApodViews` | apod/views.py |
| `ApodTasks` | apod/task.py |
| `FetchApodCommand` | apod/management/commands/fetch_apod.py |
| `PopulateCoordinatesCommand` | apod/management/commands/populate_coordinates.py |
| `GibsModels` | gibs/models.py |
| `GibsServices` | gibs/services.py |
| `GibsViews` | gibs/views.py |
| `FetchGibsLayersCommand` | gibs/management/commands/fetch_gibs_layers.py |
| `FetchGibsTilesCommand` | gibs/management/commands/fetch_gibs_tiles.py |
| `SeedSampleImagesCommand` | gibs/management/commands/seed_sample_images.py |
| `TileLoader` | static/js/main.js |

Shared modules hold what the Python runtime supplies:

- `Common`: text helpers, decimal rendering, `int()` and `float()` of text, split and join.
- `Dates`: `datetime`, `timedelta`, `strptime('%Y-%m-%d')`, `date.fromisoformat` and Django's `parse_date`.
- `Json`: decoded JSON values, and `int()`, `float()` and `str()` on them.
- `Sorting`: what `order_by` guarantees.

## Model

| member | source | states |
|---|---|---|
| ApodModels.LevelFromValue | apod/models.py:72-77 | a stored level value is accepted only when it is one of the four choice values, and then it is that level's value |
| ApodModels.LevelValueRoundTrip | apod/models.py:72-80 | every level reads back as itself and fits the 10-character column |
| ApodModels.ContentWithDefaults | apod/models.py:7-13 | a picture given only title, explanation and url has media type "image" and null hdurl, copyright and thumbnail |
| ApodModels.NewLog | apod/models.py:79-82 | a log entry created with only a message is level info, stamped now, with no details |
| ApodModels.ImageLabelStartsWithDate | apod/models.py:23-24 | a picture's label starts with its date, which reads back as that date, followed by " - " |
| ApodModels.LogLabelIgnoresMessageTail | apod/models.py:87-88 | two log entries with the same time, level and first 50 message characters have the same label |
| ApodModels.LogLabelLength | apod/models.py:87-88 | a log label holds at most 50 characters of the message, and the whole message when it is that short |
| ApodModels.EmptyTablesValid | apod/models.py:5-85 | the empty database meets the schema's guarantees |
| ApodModels.OneImagePerDate | apod/models.py:6 | two stored pictures with the same date are the same row |
| ApodModels.OneCoordinatePerNameAndBody | apod/models.py:66 | two stored coordinates with the same name and body are the same row |
| ApodModels.SameNameOnTwoBodies | apod/models.py:66 | one name on two different bodies is allowed |
| ApodModels.UpsertImage | apod/models.py:6-16 | update-or-create by date: the row gets the new content and update time, keeps its id and creation time when it existed, and takes the next id and now otherwise; other tables are untouched |
| ApodModels.CreateImage | apod/models.py:6-16 | creating a picture for a new date adds exactly that row with the next id and both timestamps now |
| ApodModels.SaveImage | apod/models.py:15-16 | saving a row writes it back under its date with the update time set to now |
| ApodModels.DeleteImageNullsReferences | apod/models.py:54-60 | deleting a picture removes only its row, nulls every coordinate reference to it, keeps every coordinate and keeps the tables valid |
| ApodModels.UpsertImagePreservesValid | apod/models.py:6 | update-or-create keeps one row per date with distinct ids |
| ApodModels.SaveImagePreservesValid | apod/models.py:6 | saving a row keeps the schema's guarantees |
| ApodModels.AddLog | apod/models.py:79-82 | creating a log entry appends exactly that entry and changes nothing else |
| ApodModels.AddLogPreservesValid | apod/models.py:71-82 | adding a log entry keeps the schema's guarantees |
| ApodModels.LogsFrom | apod/models.py:79 | the entries kept by a cutoff are all stamped at or after it and come from the log |
| ApodModels.LogsFromKeepsExactlyTheRecent | apod/models.py:79 | filtering by a cutoff keeps every entry at or after it and removes exactly the earlier ones |
| ApodModels.DeleteLogsBefore | apod/models.py:79 | deleting entries before a cutoff leaves exactly the later ones, reports how many went, and touches no other table |
| ApodModels.GetOrCreateCoordinate | apod/models.py:47-66 | get-or-create by (name, body): created exactly when absent, an existing row is returned untouched, a new row takes the defaults and no picture |
| ApodModels.GetOrCreateCoordinatePreservesValid | apod/models.py:66 | get-or-create keeps one coordinate per (name, body) |
| ApodModels.NameOrderIsTotal | apod/models.py:65 | ordering coordinates by name is a total preorder |
| ApodModels.ImagesInDefaultOrder | apod/models.py:19 | listing pictures gives every stored picture once, newest date first |
| ApodModels.CoordinatesInDefaultOrder | apod/models.py:65 | listing coordinates gives every stored coordinate once, ordered by name |
| ApodModels.LogsInDefaultOrder | apod/models.py:85 | listing logs gives every entry (as a multiset), newest first |
| ApodModels.LatestImage | apod/models.py:19 | the latest picture is absent only for an empty table and otherwise has the greatest date |
| ApodModels.NewestComesFirst | apod/models.py:19 | the first picture of the default listing has the greatest date |
| ApodModels.ApodDatabase.constructor | apod/models.py:5-85 | a fresh database has empty tables |
| ApodModels.ApodDatabase.UpdateOrCreateImage | apod/models.py:6-16 | the tables become the update-or-create result, and the created flag says the date was absent |
| ApodModels.ApodDatabase.CreateImageRow | apod/models.py:6-16 | the tables become the create result |
| ApodModels.ApodDatabase.SaveImageRow | apod/models.py:15-16 | the tables become the save result |
| ApodModels.ApodDatabase.CreateLog | apod/models.py:79-82 | the log gains exactly the new entry |
| ApodModels.ApodDatabase.DeleteLogsOlderThan | apod/models.py:79 | the tables and the count become the deletion's result |
| ApodModels.ApodDatabase.GetOrCreateCoordinateRow | apod/models.py:47-66 | the tables, row and flag become the get-or-create result |
| ApodAdmin.MessagePreview | apod/admin.py:56-57 | a message of at most 100 characters is shown whole; a longer one as its first 100 characters followed by "..." |
| ApodAdmin.PreviewBounded | apod/admin.py:56-57 | a preview is at most 103 characters long and starts like the message |
| ApodAdmin.HasDetails | apod/admin.py:60-61 | an entry has details exactly when the column is neither null nor an empty object |
| ApodAdmin.HasAddPermission | apod/admin.py:65-66 | the log screen never allows adding an entry |
| ApodAdmin.HasChangePermission | apod/admin.py:68-69 | the log screen never allows editing an entry |
| ApodAdmin.AdminDeletionOnlyRemoves | apod/admin.py:71 | the delete action only removes entries: what remains was already there |
| ApodAdmin.AdminDeletionKeepsUnselected | apod/admin.py:71 | every entry that was not selected remains |
| ApodAdmin.AdminDeletionOfNothing | apod/admin.py:71 | deleting an empty selection leaves the log unchanged |
| ApodAdmin.Unselected | apod/admin.py:71 | the reference reading of the delete action: the entries at positions not chosen, in their original order, never more than the log held |
| ApodAdmin.AdminDeletionKeepsUnselectedInOrder | apod/admin.py:71 | deleting the selected positions leaves exactly the unselected entries, in their original order |
| ApodAdmin.AdminDeletionCount | apod/admin.py:71 | the log shrinks by exactly the number of selected positions that exist |
| ApodTasks.FetchLatestApod | apod/task.py:10-37 | the nightly task leaves the database as the fetch-latest effect says |
| ApodTasks.FetchLatestWhenPresent | apod/task.py:16-24 | with today's picture stored, the task only appends one 'info' entry saying it already exists |
| ApodTasks.FetchLatestWhenAbsent | apod/task.py:26-37 | without today's picture, the task fetches it and appends two entries, the last 'success' exactly when NASA delivered and 'error' otherwise; a row for today appears exactly on success |
| ApodTasks.CheckNasaApiUpdate | apod/task.py:39-92 | the update check leaves the database as the check's effect says |
| ApodTasks.CheckCreatesOnlyWhenAbsent | apod/task.py:56-75 | the check never removes a picture, creates one only for the returned date when it had none and the answer has no null in a NOT NULL column (with the next id and the answer's content), and leaves every other date's row unchanged |
| ApodTasks.CheckRefreshesStaleRow | apod/task.py:76-86 | a row last saved more than an hour ago takes title, explanation, url and hdurl from the answer (keeping absent ones, storing `str()` of a non-string and NULL for a null hdurl), keeps its other columns, id and creation time, is stamped now, and one 'info' entry is added |
| ApodTasks.CheckRefusesNull | apod/task.py:60-92 | a null title, explanation, url or media type on the create path, or a null title, explanation or url on the refresh path, writes no picture and warns with SQLite's NOT NULL message for that column |
| ApodTasks.CheckLeavesFreshRow | apod/task.py:76 | a row saved within the last hour leaves every table unchanged |
| ApodTasks.CheckFailureWarnsOnce | apod/task.py:88-92 | any failure appends exactly one 'warning' entry starting "APOD check failed: " and writes no picture |
| ApodTasks.StrptimeValue | apod/task.py:56 | the `date` member is parsed by `strptime` when it is a string; any other JSON value fails with the TypeError text, which shows `None` for a null and the type name otherwise |
| ApodTasks.ReturnedDate | apod/task.py:52-56 | a date comes back only from a JSON object with a `date` member that `strptime` accepts, and then it is that date; a present member that yields none made `strptime` fail |
| ApodTasks.CheckRefusesNumericDate | apod/task.py:56 | a date sent as a number warns "APOD check failed: strptime() argument 1 must be str, not int" |
| ApodTasks.CheckRefusesNullDate | apod/task.py:56 | a null date warns "APOD check failed: strptime() argument 1 must be str, not None" |
| ApodTasks.CheckRefusesMissingDay | apod/task.py:56 | the date '2024-02-30' warns "APOD check failed: day is out of range for month" |
| ApodTasks.ArchiveDates | apod/task.py:101-102 | the archive visits `days` dates (none for a negative count), the i-th being i days before today |
| ApodTasks.ArchiveDatesFromToday | apod/task.py:101-102 | the archive starts at today and steps back one day at a time |
| ApodTasks.BackfillApodArchive | apod/task.py:94-110 | the archive task leaves the database as the archive effect says, and reports whether it completed |
| ApodTasks.ArchiveRunKeepsExistingRows | apod/task.py:104-105 | the archive never changes an existing row and adds rows only for the dates it visits |
| ApodTasks.BackfillArchiveEndsWithSuccess | apod/task.py:107-110 | a completed archive run ends with one 'success' entry naming the day count |
| ApodTasks.BackfillArchiveDefaultsToThirtyDays | apod/task.py:95 | with no day count the archive covers 30 dates, today back to 29 days ago, and a completed run logs "Completed backfill of 30 days" |
| ApodTasks.CleanupOldLogs | apod/task.py:112-123 | the purge leaves the database as the cleanup effect says |
| ApodTasks.CleanupKeepsExactlyRecent | apod/task.py:117-123 | the purge keeps exactly the entries from the last seven days, in order, then appends one 'info' entry with the number deleted; pictures and coordinates are untouched |
| ApodViews.ContentFromResponseRoundTrip | apod/views.py:387-398 | storing the answer that describes a picture stores exactly that picture's content, a null hdurl, copyright or thumbnail included |
| ApodViews.ContentFromEmptyResponse | apod/views.py:389-397 | an answer with no members stores '' in every column except the media type, which is 'image' |
| ApodViews.ContentFromResponseFailsOnNull | apod/views.py:387-398 | a write fails exactly when title, explanation, url or media type is sent as null, and then it names the first of them in table order |
| ApodViews.NullableText | apod/models.py:10-13 | a nullable column stores NULL exactly for a null value |
| ApodViews.NullHdurlStoredAsNull | apod/views.py:393 | a null hdurl is stored as NULL, not as the text 'None' |
| ApodViews.NumericTitleStoredAsText | apod/views.py:390 | a title sent as a number is stored as its decimal text, which `int()` reads back as that number |
| ApodViews.FetchAndSaveApod | apod/views.py:368-426 | the fetch leaves the database and returns the row as the fetch effect says |
| ApodViews.FetchAndSaveStoresResponse | apod/views.py:381-407 | a delivered answer leaves exactly one row for the date holding the answer's values, touches no other picture, and appends one 'success' entry carrying the title |
| ApodViews.FetchAndSaveFailureKeepsImages | apod/views.py:409-426 | any other answer returns nothing, leaves the pictures unchanged and appends exactly one 'error' entry; a request error names the date, and a JSON object with a null in a NOT NULL column logs 'Error processing APOD data' with SQLite's message for that column |
| ApodViews.FetchAndSaveNullTitle | apod/views.py:387-426 | a null title stores nothing and logs exactly one 'error' entry "Error processing APOD data" whose details hold "NOT NULL constraint failed: apod_apodimage.title" |
| ApodViews.FetchAndSaveImages | apod/views.py:387-398 | a delivered answer overwrites the date's row (keeping its id when it existed); a failed one leaves the picture table unchanged |
| ApodViews.FetchAndSaveTwice | apod/views.py:387-398 | two fetches of one date never make a second row; the second successful answer's content is what remains, under the first row's id |
| ApodViews.FetchAndSavePreservesValid | apod/views.py:387-398 | a fetch keeps one row per date with distinct ids |
| ApodViews.TerminalFetchTarget | apod/views.py:218-232 | the date the terminal asks for is always a representable date |
| ApodViews.TerminalFetch | apod/views.py:213-258 | the terminal fetch leaves the database and replies as its effect says |
| ApodViews.TerminalFetchYesterday | apod/views.py:223-224 | 'yesterday' in any letter case asks for the day before today |
| ApodViews.UpperCaseYesterday | apod/views.py:223 | mixed-case 'YeSTerDAY' lower-cases to 'yesterday' |
| ApodViews.TerminalFetchRefusesUnparseable | apod/views.py:226-232 | any other text that `parse_date` reads as no date (fromisoformat refuses it and the YYYY-M-D pattern does not match) is refused as an invalid format and nothing is written |
| ApodViews.TerminalFetchAcceptsFinalNewline | apod/views.py:226-227 | a date followed by one newline is still read as that date, so the fetch goes ahead |
| ApodViews.TerminalFetchWithoutDate | apod/views.py:219-232 | a body without a date is refused the same way |
| ApodViews.DaysBefore | apod/views.py:272-273 | the terminal backfill visits `days` dates (none when negative), the i-th being i+1 days before today |
| ApodViews.DaysBeforeDescend | apod/views.py:272-273 | those dates run from yesterday backwards one day at a time, never today |
| ApodViews.CountFetchedBound | apod/views.py:276-277 | the success count never exceeds the number of results |
| ApodViews.BackfillRunReportsEachDate | apod/views.py:272-288 | a completed run reports one result per date, in the order visited |
| ApodViews.BackfillStep | apod/views.py:274-288 | one day of the loop appends that day's result and adds one to the count exactly when the fetch succeeded |
| ApodViews.TerminalBackfill | apod/views.py:260-300 | the terminal backfill leaves the database and replies as its effect says |
| ApodViews.BackfillLoop | apod/views.py:272-288 | the loop leaves the database as the run over the dates says, with the run's results and their success count |
| ApodViews.TerminalBackfillReport | apod/views.py:268-295 | a completed backfill reports `days` results, the i-th for i+1 days before today, and a count no larger than that |
| ApodViews.GetOrCreateEach | apod/views.py:320-333 | get-or-create on each seed in turn, counting the rows created |
| ApodViews.TerminalPopulateCoordinates | apod/views.py:302-344 | the ten built-in coordinates are get-or-created on (name, body) and the count is returned |
| ApodViews.PopulateKeepsExisting | apod/views.py:321-331 | populating keeps every existing coordinate as it was, adds one row per missing (name, body), and touches no other table |
| ApodViews.PopulateKeys | apod/views.py:321-331 | after populating, the coordinate keys are the old ones plus every seed's (name, body) |
| ApodViews.PopulateKeepsValues | apod/views.py:321-331 | populating never changes a coordinate that already existed |
| ApodViews.PopulateCountsAdded | apod/views.py:332-338 | the reported count is exactly the number of rows added |
| ApodViews.GetOrCreateCoordinateGrows | apod/views.py:322-331 | one get-or-create adds at most its own key and changes no existing coordinate |
| ApodViews.PopulateNothingMissing | apod/views.py:321-338 | when every seed already has its row, populating changes nothing and reports 0 |
| ApodViews.PopulateTwiceCreatesNone | apod/views.py:321-338 | an immediate second run reports 0 and changes nothing |
| ApodViews.ApiImageByDate | apod/views.py:147-168 | a row is returned exactly when the parameter is a non-empty text that `parse_date` reads as a stored date; 'date required' exactly when the parameter is missing or empty |
| ApodViews.ApiImageByDateFindsStored | apod/views.py:156-164 | asking for a stored date in ISO form returns that date's id, title and date |
| ApodViews.ApiImageByDateReadsLooseForms | apod/views.py:155-164 | a stored date followed by one newline, or with a one-digit month and day written without padding, still finds its row |
| ApodViews.ApiImageByDateStatuses | apod/views.py:151-166 | a missing or empty parameter gives 400, a date with no row gives 404 |
| ApodViews.ImageWithId | apod/views.py:24 | a lookup by id yields only a stored picture with that id |
| ApodViews.HomePrefersToday | apod/views.py:30-33 | with today's picture stored, the home page shows it and only logs the visit |
| ApodViews.HomeFallsBackToLatest | apod/views.py:35-37 | without today's picture, the home page shows the stored picture with the latest date and fetches nothing |
| ApodViews.HomeFetchesOnlyWhenEmpty | apod/views.py:19-44 | the home page writes pictures only when the table was empty and no picture id was asked for |
| FetchApodCommand.FetchSingleApod | apod/management/commands/fetch_apod.py:62-105 | one fetch leaves the database and returns as the single-fetch effect says |
| FetchApodCommand.FetchSingleNeeds200 | apod/management/commands/fetch_apod.py:75-77 | any status but 200 returns False and writes nothing |
| FetchApodCommand.FetchSingleStores | apod/management/commands/fetch_apod.py:79-105 | it returns True exactly for a 200 answer with a JSON object with no null in a NOT NULL column, whose content (with '' and 'image' defaults) is then upserted under the date; no log entry is ever written |
| FetchApodCommand.Handle | apod/management/commands/fetch_apod.py:27-60 | the command leaves the database and reports as its effect says |
| FetchApodCommand.BackfillTakesPrecedence | apod/management/commands/fetch_apod.py:28-46 | a positive `--backfill` makes the positional date irrelevant |
| FetchApodCommand.SingleRunBounds | apod/management/commands/fetch_apod.py:37-40 | the backfill loop counts at most one success per date, writes only the dates it visits and adds no log entry |
| FetchApodCommand.BackfillReportBound | apod/management/commands/fetch_apod.py:34-44 | `--backfill N` reports at most N successes out of N |
| FetchApodCommand.InvalidDateFetchesNothing | apod/management/commands/fetch_apod.py:48-51 | a date argument of the wrong form reports an error and writes nothing |
| FetchApodCommand.NoArgumentsFetchesYesterday | apod/management/commands/fetch_apod.py:56-60 | with no arguments only yesterday is fetched and no other date changes |
| GibsModels.LayerDefaults | gibs/models.py:7-27 | a layer created with only title, format and projection has blank texts, no dates, no tags and no wraparound |
| GibsModels.WeekImageLabelShowsTitleAndDate | gibs/models.py:80-81 | an entry's label is its title, " - ", and its publication date, which parses back |
| GibsModels.DefaultSettings | gibs/models.py:89-99 | a new configuration has no active layers, no opacities, centre (0, 0), zoom 2, projection 'EPSG:4326' and today's date |
| GibsModels.EmptyGibsTablesValid | gibs/models.py:7 | the empty database stores each layer under its own id |
| GibsModels.OneLayerPerId | gibs/models.py:7 | two stored layers with the same `layer_id` are the same row |
| GibsModels.TwoConfigsMayShareSession | gibs/models.py:86 | the schema allows two configurations with the same session id |
| GibsModels.UpsertLayer | gibs/models.py:7-30 | update-or-create by `layer_id`: created exactly when absent, the row gets exactly the given columns, keeps its creation time when it existed, and no other layer or table changes |
| GibsModels.UpsertLayerPreservesValid | gibs/models.py:7 | update-or-create keeps each layer under its own id |
| GibsModels.CountTitledZero | gibs/models.py:45 | no entry has a title exactly when the count of entries with that title is 0 |
| GibsModels.FirstOfSession | gibs/models.py:86 | the position found is the first configuration with the session id, and there is none exactly when no configuration has it |
| GibsModels.GetOrCreateWeekImage | gibs/models.py:43-70 | get-or-create by title fails when two entries share the title, returns the tables unchanged when one has it, and otherwise appends exactly the new entry stamped now |
| GibsModels.GetOrCreateConfig | gibs/models.py:84-102 | get-or-create by session fails when two configurations share it, finds the one that has it, or appends one with the defaults |
| GibsModels.SaveConfig | gibs/models.py:84-102 | saving a configuration replaces its settings and stamps it now; no other configuration or table changes |
| GibsModels.LayersInDefaultOrder | gibs/models.py:33 | listing layers gives every layer once, most recently updated first |
| GibsModels.WeekImagesInDefaultOrder | gibs/models.py:73 | listing entries gives every entry (as a multiset), newest publication first |
| GibsModels.GibsDatabase.constructor | gibs/models.py:5-108 | a fresh database has empty tables |
| GibsModels.GibsDatabase.UpdateOrCreateLayer | gibs/models.py:7-30 | the tables and the created flag become the upsert's result |
| GibsModels.GibsDatabase.GetOrCreateWeekImageRow | gibs/models.py:43-70 | the tables and flag become the get-or-create result, and a failure changes nothing |
| GibsModels.GibsDatabase.GetOrCreateConfigRow | gibs/models.py:84-102 | the tables and position become the get-or-create result, and a failure changes nothing |
| GibsModels.GibsDatabase.SaveConfigRow | gibs/models.py:84-102 | the tables become the save result |
| GibsServices.TileMatrixSetFor | gibs/services.py:32 | the tile matrix set is '250m' exactly for 'EPSG:4326' and '31.25m' otherwise |
| GibsServices.TileUrlIsJoin | gibs/services.py:11-42 | the tile address is the fixed prefix followed by layer, "default", date, tile matrix set, z, y and "x.format" joined by '/' |
| GibsServices.TileUrlSegments | gibs/services.py:11-42 | when layer, date and format hold no '/', the address splits back into exactly those seven segments, and the z and y segments read back as the numbers given (z before y before x) |
| GibsServices.TileUrlDefaults | gibs/services.py:16 | without projection and format the tile address uses the '250m' matrix set and ends in "x.jpg" |
| GibsServices.IntToStringHasNoSeparator | gibs/services.py:38-40 | a printed integer holds no '/' or '&', so it cannot split a path or a query |
| GibsServices.QueryPairs | gibs/services.py:169 | each query pair is the key, '=', and the value, with nothing escaped |
| GibsServices.WmtsQueryPairs | gibs/services.py:153-170 | the WMTS address is the endpoint, '?', then eleven pairs SERVICE…TIME in fixed order; splitting on '&' gives them back when no value holds '&' |
| GibsServices.WmtsUrlDefaults | gibs/services.py:135-137 | without the optional arguments the WMTS query asks for matrix set EPSG4326_250m, matrix 0, row 0, column 0 and format image/jpeg |
| GibsServices.NextDay | gibs/services.py:130 | adding one day moves the instant exactly 86400 seconds on |
| GibsServices.FormatAll | gibs/services.py:129 | each date is written as YYYY-MM-DD, in order |
| GibsServices.ResumeStep | gibs/services.py:128-130 | one turn of the loop appends the current day and continues from the next, or raises when the next day is past year 9999 |
| GibsServices.GetAvailableDates | gibs/services.py:106-132 | the loop returns the list the date-range definition gives, or an error exactly when it raises |
| GibsServices.DatesFromConsecutive | gibs/services.py:125-132 | the dates are consecutive days from the start, ascending and one per day; the list is empty exactly when the start is after the end, and it stops at the last whole day not after the end |
| GibsServices.DatesFromWithinRange | gibs/services.py:128-130 | a range ending before year 9999 never raises |
| GibsServices.DefaultWindowIsOneYear | gibs/services.py:118-121 | with no bounds given, the list runs from 365 days ago to today: 366 dates |
| Dates.DayNumberDeterminesDate | gibs/services.py:129 | two valid dates with the same day number are the same date |
| GibsServices.FetchCapabilities | gibs/services.py:44-87 | an unusable answer gives the empty list; otherwise the entries of the usable layer elements, in document order |
| GibsServices.CapabilityLayersAppend | gibs/services.py:66-81 | the filter keeps document order: two runs of elements give their entries in turn |
| GibsServices.CapabilityLayersMembership | gibs/services.py:66-81 | an element is listed exactly when it has both an identifier and a title, and every entry comes from such an element |
| GibsServices.FormatKeyOnlyWhenPresent | gibs/services.py:77-79 | an entry has a 'format' key exactly when its element had a format element |
| GibsViews.Filter | gibs/views.py:141-149 | filtering a query set never lengthens it |
| GibsViews.FilterMembership | gibs/views.py:141-149 | a row is in the filtered set exactly when it was in the set and passes the filter |
| GibsViews.FilteredComesFrom | gibs/views.py:141-149 | every filtered row comes from the set |
| GibsViews.FilterKeepsOrder | gibs/views.py:139-149 | filtering keeps the query set's order |
| GibsViews.FilterPassingAll | gibs/views.py:141-149 | a filter every row passes changes nothing |
| GibsViews.CategoryThenTitleIsTotalPreorder | gibs/views.py:139 | ordering by (category, title) is a total preorder |
| GibsViews.ListingExists | gibs/views.py:139 | a layer table can be listed, each layer once, in any total preorder |
| GibsViews.Summarize | gibs/views.py:157-165 | a summary keeps id and title, shows an empty category as 'Other' and an empty format as 'jpg', cuts the description to 100 characters (keeping a short one whole), and has dates exactly when the layer does |
| GibsViews.SummarizeAll | gibs/views.py:157-165 | one summary per layer, in order |
| GibsViews.ApiSearchLayers | gibs/views.py:132-171 | the search fails exactly for a non-empty limit that is not a non-negative integer; otherwise `total` counts every match, `returned` is the number of summaries, which is all matches without a limit and min(total, limit) with one, each the summary of the match at its position |
| GibsViews.SearchMatchesExactly | gibs/views.py:139-149 | before the limit, the matches are exactly the stored layers passing the text and category filters, each once, in (category, title) order |
| GibsViews.EmptySearchListsAll | gibs/views.py:141-149 | with no query and no category (or 'all'), every layer is listed and total equals returned |
| GibsViews.CatalogMatchesExactly | gibs/views.py:77-89 | the catalog lists exactly the stored layers passing its category and search filters, most recently updated first |
| GibsViews.StrLeIsTotalPreorder | gibs/views.py:102 | ordering texts is a total preorder |
| GibsViews.CatalogCategories | gibs/views.py:92-102 | the category list holds each non-empty category in use, once, in ascending order |
| GibsViews.CatalogCategoriesAsWritten | gibs/views.py:92-102 | as written, the list is sorted and has one entry per distinct (category, update time) pair, holding exactly the non-empty categories in use |
| GibsViews.CatalogCategoriesRepeatAsWritten | gibs/views.py:92-102 | two layers of one category updated at different times make that category appear at least twice as written, and once in the corrected list |
| GibsViews.MonthNavigation | gibs/views.py:37-52 | the page shows exactly the month's entries, newest first; `next_month` is the first day of the following month and `prev_month` the first day of the one before |
| GibsViews.MonthPageListsPublishedMonths | gibs/views.py:43 | the available months are the first days of the months that have an entry, each once, newest first |
| GibsViews.NonIntegerMonthFallsBack | gibs/views.py:29-34 | a year or month that is not an integer shows the current month |
| GibsViews.SettingsFromRequest | gibs/views.py:189-197 | a save writes each member with its default when missing, and the date only when given; an unreadable date or a null in a NOT NULL column makes it fail |
| GibsViews.SavedDateIsTheIsoDate | gibs/views.py:196-197 | a `currentDate` written as zero-padded YYYY-MM-DD is saved as that date |
| GibsViews.UnpaddedDateIsRefused | gibs/views.py:197 | a `currentDate` without zero padding (such as 2024-1-5) makes the save fail |
| GibsViews.ApiSaveConfig | gibs/views.py:174-203 | the save leaves the database and replies as the save effect says |
| GibsViews.OnlyConfigIsFirst | gibs/views.py:185-187 | when a session has one configuration, it is the one found |
| GibsViews.SaveThenGet | gibs/views.py:185-225 | after a successful save under a session key, reading the configuration back gives the settings built from the request over the previous (or default) settings, with the date in ISO form |
| GibsViews.RejectedSaveKeepsConfigs | gibs/views.py:185-203 | a rejected save changes no existing configuration; at most the default row get-or-create added remains |
| FetchGibsLayersCommand.DefaultIdentifiersDistinct | gibs/management/commands/fetch_gibs_layers.py:102-180 | the built-in list holds 27 layers with pairwise distinct identifiers |
| FetchGibsLayersCommand.DefaultLayersWellFormed | gibs/management/commands/fetch_gibs_layers.py:102-180 | every built-in entry has an identifier, a title and a format |
| FetchGibsLayersCommand.FallbackExactlyWhenEmpty | gibs/management/commands/fetch_gibs_layers.py:26-30 | the built-in list is used exactly when the capabilities yield no layer; otherwise the capabilities' layers are used, in order |
| FetchGibsLayersCommand.LayerFieldsFor | gibs/management/commands/fetch_gibs_layers.py:48-73 | the columns written: title defaults to the identifier, description to '', format to 'jpg', category to 'Other', tags are the lower-cased category, projection 'EPSG:4326', resolution 'daily', source 'NASA GIBS', wraparound on, end 2025-10-01 and start five 365-day years ago; it fails exactly for a null title or format or a start date out of range |
| FetchGibsLayersCommand.SyncOneOutcome | gibs/management/commands/fetch_gibs_layers.py:39-81 | a layer is skipped exactly when stored and not forced (left as it is); otherwise it is created exactly when absent, or rewritten, with the computed columns and no other layer changed; a failure writes nothing |
| FetchGibsLayersCommand.LayerList | gibs/management/commands/fetch_gibs_layers.py:26-30 | the list walked is the capabilities' layers or the built-in list |
| FetchGibsLayersCommand.SyncOneLayer | gibs/management/commands/fetch_gibs_layers.py:39-81 | one turn of the loop leaves the database and outcome as the one-layer effect says |
| FetchGibsLayersCommand.SyncContinuesStep | gibs/management/commands/fetch_gibs_layers.py:38-81 | after one layer, a failure ends the run with the counters so far, and any other outcome moves exactly its own counter |
| FetchGibsLayersCommand.SyncLoop | gibs/management/commands/fetch_gibs_layers.py:34-81 | the loop leaves the database and the three counters as the run over the list says |
| FetchGibsLayersCommand.Handle | gibs/management/commands/fetch_gibs_layers.py:17-100 | the command leaves the database and counters as its effect says |
| FetchGibsLayersCommand.SyncCountersAddUp | gibs/management/commands/fetch_gibs_layers.py:34-81 | each layer handled moves exactly one counter: the three add up to the list's length when the loop finishes, and to less when it is abandoned |
| FetchGibsLayersCommand.SyncGrowsByCreated | gibs/management/commands/fetch_gibs_layers.py:58-77 | the layer table grows by exactly the number created, stays keyed by `layer_id`, and no other table changes |
| FetchGibsLayersCommand.NoForceKeepsStoredLayers | gibs/management/commands/fetch_gibs_layers.py:42-46 | without `--force` every layer stored before the run is left exactly as it was |
| FetchGibsLayersCommand.FailureAbandonsRest | gibs/management/commands/fetch_gibs_layers.py:24-100 | once a layer fails, the layers after it are never looked at |
| FetchGibsLayersCommand.NewLayersAllCreated | gibs/management/commands/fetch_gibs_layers.py:38-81 | complete layers with distinct, unstored identifiers are all created, with or without `--force` |
| FetchGibsLayersCommand.DefaultsFillEmptyTable | gibs/management/commands/fetch_gibs_layers.py:26-81 | on an empty table with no capabilities, the built-in list creates all 27 layers |
| FetchGibsTilesCommand.DaysAgo | gibs/management/commands/fetch_gibs_tiles.py:38 | n days before now is the date n days earlier, or an error exactly when that leaves the representable years |
| FetchGibsTilesCommand.DefaultTestDateIsYesterday | gibs/management/commands/fetch_gibs_tiles.py:35-38 | without a `--date` (or with an empty one) the test date is yesterday |
| FetchGibsTilesCommand.DateArgumentIsTestDate | gibs/management/commands/fetch_gibs_tiles.py:35-36 | a `--date` written as YYYY-MM-DD is the date tested |
| Dates.Strptime | gibs/management/commands/fetch_gibs_tiles.py:36 | `strptime('%Y-%m-%d')` yields only dates Python can represent |
| Dates.StrptimeFormatRoundTrip | apod/task.py:56 | `strptime` of a date written as YYYY-MM-DD gives that date back |
| Dates.StrptimeAgreesWithIsoFormat | apod/task.py:56 | on zero-padded YYYY-MM-DD text, `strptime` and `fromisoformat` accept the same texts and give the same date |
| Dates.UnpaddedDateOnlyForStrptime | apod/task.py:56 | a date with a one-digit month and day written without padding is accepted by `strptime` and refused by `fromisoformat` |
| Dates.StrptimeDayOutOfRange | apod/task.py:56 | '2024-02-30' fails with "day is out of range for month" |
| Dates.StrptimeLeavesUnconvertedData | apod/task.py:56 | '2024-01-32' fails with "unconverted data remains: 2" |
| Dates.FromIsoFormat | gibs/views.py:197 | `fromisoformat` accepts only zero-padded YYYY-MM-DD text, and the date is the one its digits spell |
| Dates.FromIsoFormatRoundTrip | gibs/views.py:197 | `fromisoformat` of a date written as YYYY-MM-DD gives that date back |
| Dates.FormatDateShape | apod/views.py:376 | `strftime('%Y-%m-%d')` writes ten characters, digits with '-' at positions 4 and 7, whose fields read back as year, month and day |
| FetchGibsTilesCommand.LimitKeepsPrefix | gibs/management/commands/fetch_gibs_tiles.py:50-51 | a truthy limit keeps a prefix: a positive one that many layers (all when it exceeds the list), a negative one all but that many from the end; no limit or 0 keeps every layer |
| FetchGibsTilesCommand.TestTileUrlIsTileUrl | gibs/management/commands/fetch_gibs_tiles.py:124-125 | the probed address is the tile address for the layer, the date as YYYY-MM-DD, the 250m set, zoom 2, row 1, column 1 and the format |
| FetchGibsTilesCommand.TestLayerTiles | gibs/management/commands/fetch_gibs_tiles.py:121-131 | a layer works exactly when its probe answers 200; no answer means it does not |
| FetchGibsTilesCommand.TileLayerFieldsDefaults | gibs/management/commands/fetch_gibs_tiles.py:83-99 | the columns written: the dictionary's values, else '' for texts, 'jpg', 'daily' and 'Other'; projection 'EPSG:4326', source 'NASA GIBS Worldview', wraparound on, and one tag, the lower-cased category |
| FetchGibsTilesCommand.TileStepOutcome | gibs/management/commands/fetch_gibs_tiles.py:61-104 | an unavailable layer writes nothing; a working one is upserted on its id, created exactly when the id is not stored, and only the layer table changes |
| FetchGibsTilesCommand.TilesContinueStep | gibs/management/commands/fetch_gibs_tiles.py:60-104 | one layer moves the counters by its outcome and the run goes on from the next layer |
| FetchGibsTilesCommand.SyncOneTile | gibs/management/commands/fetch_gibs_tiles.py:61-104 | the loop body leaves the database and outcome as the one-layer effect says |
| FetchGibsTilesCommand.TileLoop | gibs/management/commands/fetch_gibs_tiles.py:55-104 | the loop leaves the database and its four counters as the run over the list says |
| FetchGibsTilesCommand.Handle | gibs/management/commands/fetch_gibs_tiles.py:29-119 | the command leaves the database and counters as its effect says, and writes nothing when the test date or the list's dates cannot be had |
| FetchGibsTilesCommand.TileCountersAddUp | gibs/management/commands/fetch_gibs_tiles.py:55-104 | working + failed is the number of layers processed, and created + updated is working |
| FetchGibsTilesCommand.TileRunGrowsByCreated | gibs/management/commands/fetch_gibs_tiles.py:83-104 | the layer table grows by exactly the number created, stays keyed by `layer_id`, and no other table changes |
| FetchGibsTilesCommand.UntestedLayersAllWork | gibs/management/commands/fetch_gibs_tiles.py:66-72 | without `--test-tiles` every layer counts as working and none fails |
| FetchGibsTilesCommand.RunAddsWorkingIds | gibs/management/commands/fetch_gibs_tiles.py:74-99 | the run adds to the layer table exactly the ids of the layers that work |
| FetchGibsTilesCommand.FailedLayersNeverWritten | gibs/management/commands/fetch_gibs_tiles.py:77-80 | a stored row whose id no working layer carries is left as it was |
| PopulateCoordinatesCommand.GetOrCreateByName | apod/management/commands/populate_coordinates.py:30-39 | two rows with the name raise, one row is returned with nothing changed, and pictures and logs are never touched |
| PopulateCoordinatesCommand.GetOrCreateByNameRow | apod/management/commands/populate_coordinates.py:30-39 | the call raises exactly when the lookup-or-create fails, leaves the tables as it says otherwise, and unchanged when it raises |
| PopulateCoordinatesCommand.PopulateByName | apod/management/commands/populate_coordinates.py:29-40 | the loop leaves the tables, the lines written and whether it raised as the run over the entries says |
| PopulateCoordinatesCommand.Handle | apod/management/commands/populate_coordinates.py:7-40 | the command runs the entries as written, with degree-minute-second text positions |
| PopulateCoordinatesCommand.HandleWithDecimalPositions | apod/management/commands/populate_coordinates.py:7-40 | the same command with its positions in decimal degrees |
| PopulateCoordinatesCommand.PopulateByNameKeepsExisting | apod/management/commands/populate_coordinates.py:29-39 | a run never changes or removes a stored coordinate and never touches pictures or logs |
| PopulateCoordinatesCommand.PopulateByNameWritesEveryLine | apod/management/commands/populate_coordinates.py:40 | a run that ends normally wrote one `Added coordinate` line per entry, in order, created or not |
| PopulateCoordinatesCommand.UnconvertibleSeedsNeverCreate | apod/management/commands/populate_coordinates.py:30-39 | entries whose latitude does not convert to a float can only find rows, never create one |
| PopulateCoordinatesCommand.DmsSeedsNeverCreate | apod/management/commands/populate_coordinates.py:13-14 | the entries as written create no row, whatever the table holds |
| PopulateCoordinatesCommand.DmsLatitudesRefused | apod/management/commands/populate_coordinates.py:13-22 | neither latitude as written reads as a decimal number |
| PopulateCoordinatesCommand.DmsSeedsRaiseOnEmptyTable | apod/management/commands/populate_coordinates.py:13-40 | on a table without Polaris the command as written raises before writing any line |
| PopulateCoordinatesCommand.KeysNamedAfterCreate | apod/management/commands/populate_coordinates.py:30-31 | a lookup-or-create on one name leaves the rows carrying any other name as they were |
| PopulateCoordinatesCommand.ConvertibleSeedsAllPresent | apod/management/commands/populate_coordinates.py:29-40 | with convertible positions, distinct names and no name on two bodies, the run ends normally and every entry's name has a row |
| PopulateCoordinatesCommand.DecimalSeedsCreateOnEmptyTable | apod/management/commands/populate_coordinates.py:9-40 | with decimal positions, a run on an empty table adds both Polaris and Pleiades |
| SeedSampleImagesCommand.SampleTitlesDistinct | gibs/management/commands/seed_sample_images.py:14-95 | the built-in list holds eight entries and no two share a title |
| SeedSampleImagesCommand.SeedStepOutcome | gibs/management/commands/seed_sample_images.py:100-126 | one pass raises exactly when a date leaves the calendar or two entries carry the title, appends exactly when none does, and the appended entry has the sample's fields, the image as thumbnail, a blank permalink, featured exactly for the first three, published `idx` weeks after the base and captured `draw` days before that |
| SeedSampleImagesCommand.SeedOne | gibs/management/commands/seed_sample_images.py:101-126 | the loop body leaves the tables and outcome as one pass says |
| SeedSampleImagesCommand.SeedLoop | gibs/management/commands/seed_sample_images.py:97-126 | the loop leaves the tables as the run says and, when nothing raised, returns the number it created |
| SeedSampleImagesCommand.Handle | gibs/management/commands/seed_sample_images.py:10-132 | the command's tables are those of the run from sixty days before now, and it reports the number created or that it raised |
| SeedSampleImagesCommand.SeedRunGrowsByCreated | gibs/management/commands/seed_sample_images.py:100-126 | stored entries are kept, one entry is appended per creation (at most one per sample), and layers and configurations are untouched |
| SeedSampleImagesCommand.SeedStepShape | gibs/management/commands/seed_sample_images.py:105-120 | a pass either leaves the tables as they were or appends exactly one entry |
| SeedSampleImagesCommand.SeedStepScheduled | gibs/management/commands/seed_sample_images.py:102-118 | an appended entry follows the schedule: thumbnail is the image, published `idx` weeks after the base, captured one to three days earlier, featured exactly within the first three weeks |
| SeedSampleImagesCommand.SeededRowsFollowSchedule | gibs/management/commands/seed_sample_images.py:100-120 | every entry the run appends follows the schedule |
| SeedSampleImagesCommand.SeededRowsWeekApart | gibs/management/commands/seed_sample_images.py:102 | each entry the run appends is published at least a week after the one appended before it |
| SeedSampleImagesCommand.NewImageThenWeekApart | gibs/management/commands/seed_sample_images.py:102 | when a pass appends, the entries appended from there on are at least a week apart |
| SeedSampleImagesCommand.SeedStepPublished | gibs/management/commands/seed_sample_images.py:102-111 | an appended entry goes at the end and is published `idx` weeks after the base |
| SeedSampleImagesCommand.SeedFromStep | gibs/management/commands/seed_sample_images.py:100-126 | the run from one entry is that entry's pass followed by the run from the next, and a raise ends it |
| SeedSampleImagesCommand.SeedKeepsOtherTitle | gibs/management/commands/seed_sample_images.py:105-106 | a title no remaining sample carries keeps the number of entries carrying it |
| SeedSampleImagesCommand.SeedCreatesAbsentTitles | gibs/management/commands/seed_sample_images.py:100-126 | with distinct titles none of which is stored, a run that does not raise creates every sample and each title is then stored exactly once |
| SeedSampleImagesCommand.SeedFindsStoredTitles | gibs/management/commands/seed_sample_images.py:105-126 | when every remaining title is stored once, the run creates nothing and writes nothing |
| SeedSampleImagesCommand.RunTwiceCreatesNothing | gibs/management/commands/seed_sample_images.py:97-126 | a second run over the same titles, from any base and with any draws, creates nothing and changes nothing |
| SeedSampleImagesCommand.SeedTwiceCreatesNothing | gibs/management/commands/seed_sample_images.py:10-132 | seeding a database without the sample titles creates all eight; seeding again creates none and writes nothing |
| SeedSampleImagesCommand.CountTitledAppend | gibs/management/commands/seed_sample_images.py:105-106 | appending an entry raises the count of its title by one and leaves every other count |
| TileLoader.FloorDiv | static/js/main.js:95-96 | for a positive tile size, the tile index whose square holds the coordinate: index · size ≤ a < (index + 1) · size |
| TileLoader.CeilDiv | static/js/main.js:126-127 | for a positive tile size, the least index whose edge is at or past the coordinate: (index − 1) · size < a ≤ index · size |
| TileLoader.ReadIntRoundTrip | static/js/main.js:101 | a printed integer, negative or not, followed by a dash or nothing, reads back as that integer |
| TileLoader.TileIdRoundTrip | static/js/main.js:101 | the id `zoom-tileX-tileY` reads back as the three numbers it was made from |
| TileLoader.TileIdInjective | static/js/main.js:101 | two tiles share an id exactly when they are the same tile, negative coordinates included |
| TileLoader.LoadTileGrows | static/js/main.js:100-120 | the loaded set only grows, by the requested id at most, and ends holding it; the callback runs exactly when one was passed and the id was new, and receives that id |
| TileLoader.LoadTileIdempotent | static/js/main.js:103-105 | asking for the same tile again changes nothing and calls no callback |
| TileLoader.LoadTileKeepsOthersNew | static/js/main.js:100-120 | loading one tile never keeps a different, not yet loaded tile from being loaded and called back later |
| TileLoader.ColumnsSize | static/js/main.js:129-135 | the nested loops produce one tile per column and row of the ranges |
| TileLoader.ColumnsIndex | static/js/main.js:129-135 | the tiles come column by column, and top to bottom within a column |
| TileLoader.ColumnsMembership | static/js/main.js:129-135 | a tile is produced exactly when its column and row are in range and its zoom is the viewport's |
| TileLoader.VisibleTilesCount | static/js/main.js:122-136 | the visible tiles number (endX − startX + 1) · (endY − startY + 1) |
| TileLoader.VisibleTilesCoverViewport | static/js/main.js:122-136 | the tile under every point of the viewport, edges included, is among the visible tiles |
| TileLoader.TileImageLoader.constructor | static/js/main.js:88-92 | the loader keeps its image address, uses 256 as the tile size when none is given, and starts with no tile loaded |
| TileLoader.TileImageLoader.TileCoordinatesOf | static/js/main.js:94-98 | the tile coordinates are those of the tile whose square holds the point, at the given zoom |
| TileLoader.TileImageLoader.LoadTile | static/js/main.js:100-120 | the loaded set and the callback's argument are as one load says, and the address and tile size are unchanged |
| TileLoader.TileImageLoader.GetVisibleTiles | static/js/main.js:122-136 | the nested loops return exactly the visible tiles of the viewport |
| Dates.ParseFormatRoundTrip | apod/views.py:155-156 | `parse_date` of a date rendered as YYYY-MM-DD gives that date back, for every year from 1 to 9999 |
| Dates.IsoFormatAgreesWithPattern | apod/views.py:155-156 | whatever `fromisoformat` accepts, the YYYY-M-D pattern reads as the same date |
| Dates.ParseDateIgnoresFinalNewline | apod/views.py:155-156 | one newline after a text does not change what `parse_date` gives, since the pattern's `$` matches before it |
| Dates.ParseFormatWithNewline | apod/views.py:226-227 | a rendered date followed by a newline parses as that date |
| Dates.UnpaddedDateParsedByPattern | apod/management/commands/fetch_apod.py:48 | YYYY-M-D without padding is refused by `fromisoformat` and read by the fallback pattern as that date |
| Dates.AddDaysNumber | gibs/services.py:130 | adding n days moves n days forward |
| Dates.SubDaysNumber | apod/views.py:224 | subtracting n days moves n days back |
| Dates.MinusDays | gibs/management/commands/seed_sample_images.py:98 | a moment n days earlier is n · 86400 seconds earlier |
| Dates.MinusOneHour | apod/task.py:76 | a moment an hour earlier is 3600 seconds earlier |
| Dates.ThirtyTwoDaysLandInNextMonth | gibs/views.py:51 | 32 days after the first of a month falls in the next month (December going to January of the next year) |
| Dates.DayBeforeFirstIsInPreviousMonth | gibs/views.py:52 | the day before the first of a month falls in the month before (January going back to December of the year before) |
| Json.Truncate | apod/views.py:266 | `int()` of a float truncates toward zero: the result is within one of the value and no farther from zero |
| Json.IntOf | apod/views.py:266 | `int()` of a decoded value keeps an integer, truncates a fraction, and raises for null, lists and objects |
| Json.IntOfDecimalString | apod/views.py:266 | `int()` of an integer sent as a decimal string is that integer |
| Json.PyStrOfIntegralFloat | apod/views.py:390 | `str()` of a float with no fraction is its integer followed by ".0" |
| Json.PyStrOfOneDecimalFloat | apod/views.py:390 | `str()` of a float with one decimal place is the integer part, '.', and that digit |
| Json.PyStrOfStringPair | apod/views.py:390 | `str()` of a list of two strings quotes each and separates them with ", " |
| Common.ParseIntRoundTrip | gibs/views.py:30-31 | `int()` of a printed integer is that integer |
| Common.TrimStart | gibs/views.py:30-31 | `int()` drops leading whitespace: the rest of the text, starting with a non-space |
| Common.TrimEnd | gibs/views.py:30-31 | `int()` drops trailing whitespace: the start of the text, ending with a non-space |
| Common.DigitGroups | gibs/views.py:30-31 | an accepted run yields only digits, no more than the text held, and starts and ends with a digit; every plain run of digits is accepted as itself |
| Common.ParseIntIgnoresBlanks | gibs/views.py:30-31 | whitespace around the number does not change what `int()` reads |
| Common.ParseIntAcceptsUnderscore | gibs/views.py:30-31 | an underscore between two digits is skipped: '1_0' reads as '10' does |
| Common.ParseIntRefusesDoubleUnderscore | gibs/views.py:30-31 | two underscores in a row make `int()` fail |
| Common.ForeignCharacterRefused | apod/models.py:49-50 | a text holding a character no float literal contains (a degree sign, say) does not convert to a float |
| Common.SplitJoinRoundTrip | gibs/services.py:169 | splitting a joined list on its separator gives the list back when no piece holds the separator |
| Sorting.SortBy | apod/views.py:55 | an ordering lists every row exactly once, in the requested order |
| Json.GetMember | apod/views.py:266 | `data.get(key, default)` raises exactly when the body is not an object, and gives the default for a missing key |
| Json.FloatOf | apod/models.py:49-50 | a float column keeps an integer or a fraction as its number and refuses null, lists and objects |
| Dates.ParseDate | apod/management/commands/fetch_apod.py:48 | `parse_date` tries `fromisoformat`, then the anchored YYYY-M-D pattern, and only ever returns a date Python can represent |

## Left out

- HTTP requests to NASA (APOD API, GIBS tiles, WMTS capabilities, Worldview configuration) are not made. Each answer is an input: a status and decoded body, a probe status, or a failure.
- The XML of the capabilities document is not parsed. It arrives as its list of layer elements, each with an optional identifier, title, abstract and format.
- The Celery wiring and beat schedule (apod/task.py:126-151) and the `time.sleep` pacing (gibs/management/commands/fetch_gibs_tiles.py:107-108) are scheduling infrastructure. Each task or command is one call.
- `timezone.now()` / `datetime.now()` is an input instant, to the second, in one time zone. Microseconds are not modelled. Where the source reads the clock twice, the model uses one instant.
- `random.randint(1, 3)` in seed_sample_images.py is an input list of draws.
- Floating-point columns and values are exact reals: latitude, longitude, opacities, the map centre and `float()` of a JSON value. Rounding to doubles is not modelled.
- Common.ParseDecimal: refuses exponents, `inf`, `nan`, underscores and surrounding blanks, which Python's `float()` accepts. No entry of the source uses them.
- Dates.ParseDate: Django's `parse_date` tries `date.fromisoformat` first, modelled by Dates.FromIsoFormat. So the basic (YYYYMMDD) and week-date (YYYY-Www-D) forms it accepts from Python 3.11 on are read as no date. The fallback pattern's `\d` is ASCII digits only, where Python also matches other Unicode decimal digits.
- ApodViews.TerminalFetchRefusesUnparseable: inherits the Dates.ParseDate gap. On Python 3.11 and later, '20240105' and '2024-W01-1' are fetched by the source but refused by the model.
- ApodViews.ApiImageByDate: inherits the Dates.ParseDate gap. On Python 3.11 and later, `?date=20240105` finds the stored row in the source and a 404 in the model.
- FetchApodCommand.InvalidDateFetchesNothing: inherits the Dates.ParseDate gap for a `--date` in the Python 3.11 forms.
- Dates.Strptime: digits are ASCII only, and the text inside "time data … does not match" is shown as given, without the escaping `%r` applies.
- GibsViews.SettingsFromRequest: `currentDate` is read by Dates.FromIsoFormat, which accepts only YYYY-MM-DD. `datetime.fromisoformat` also accepts a time part after the date, and from Python 3.11 on the basic (YYYYMMDD) and week-date forms; the model refuses those saves instead of storing the date.
- Common.ParseInt: whitespace and digits are ASCII only (the ASCII white space includes \x1c to \x1f); Python's `int()` also accepts other Unicode spaces and decimal digits.
- Json.PyStr: a float is written as its exact decimal value, cut at 17 fraction digits, where Python writes the shortest text that reads back as the same double and uses exponent notation below 1e-4 and from 1e16 on; `-0.0` is not distinguished. Strings inside a list are quoted with `'` and not escaped. An object is written as `{}` whatever its members.
- ApodViews.FetchAndSaveApod: the row returned carries the stored text of each column. Django's in-memory instance keeps the raw JSON value, so a number sent as the title is a number in `terminal_fetch`'s reply, where the model has its text.
- Common.Lower: only ASCII letters change case. Python's full Unicode case mapping is not modelled, so the search in `api_search_layers` and `terminal_fetch`'s 'yesterday' test are ASCII-only.
- Sorting.SortBy: rows that compare equal come out in an order the database chooses. The model fixes one such order without saying which.
- ApodAdmin.HasDetails: models the JSON `details` column as an optional object only. Truthiness of a list, string or number stored there is not modelled.
- TileLoader.TileImageLoader.TileCoordinatesOf: positions, sizes and tile indices are integers, and the tile size must be positive. JavaScript's non-integer coordinates and its `Infinity`/`NaN` for a zero or negative size are not modelled.
- The `apod:log` event that `loadTile` dispatches and the caller's callback body are UI. The model returns the callback's argument instead.
- The rest of static/js/main.js is not part of this model: the DOM, lazy-loading observer, keyboard handlers and load timing.
- The `coordinates` dictionary of the Image of the Week entries (built-in samples included) is floating-point map data and is not modelled.
- Log and console texts are modelled only where a property depends on them: levels, titles and counts in messages. `print`, `self.stdout` styling and tracebacks are left out.
- Page rendering, templates, pagination, CSRF and session creation are not modelled. The pure page views are read-only and not modelled: `archive`, `coordinates_view`, `terminal_view`, `api_archive`, `api_image_detail`, `api_coordinates`, `api_logs`, `terminal_status`, `explorer_view`, `image_detail_view`, `api_get_layer_info` and `GIBSService.get_worldview_config`.
- The built-in Worldview layer list (gibs/management/commands/fetch_gibs_tiles.py:133-482) is kept as data. No lemma states its contents beyond its use by the command.
- The settings, URL configuration, app config and the GIBS admin screens are configuration with no behaviour to model.

## Findings

| source | as written | input that shows it | evidently intended | confidence | as-written member | corrected member |
|---|---|---|---|---|---|---|
| apod/management/commands/populate_coordinates.py:13-14 | latitude and longitude are degree-minute-second text such as '89°15′50.8″', stored into the float columns of apod/models.py:49-50 | a table without a coordinate named Polaris: the first `get_or_create` tries to create the row, the float conversion raises, and the command stops before writing any line | decimal degrees (89.2641…, 37.9519…), so missing entries are created | not executed | PopulateCoordinatesCommand.DmsSeedsRaiseOnEmptyTable | PopulateCoordinatesCommand.DecimalSeedsCreateOnEmptyTable |
| gibs/views.py:92 | `values_list('category', flat=True).distinct()` on a model ordered by `-updated_at` (gibs/models.py:33): Django adds the ordering column to the query, so DISTINCT applies to (category, updated_at) pairs | two layers of category 'Atmosphere' saved at different times: the catalog's category list shows 'Atmosphere' twice | each category once, as clearing the ordering before `distinct()` would give | not executed | GibsViews.CatalogCategoriesRepeatAsWritten | GibsViews.CatalogCategories |
