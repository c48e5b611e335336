# gbp — a verified model of the seed pipeline and the planner's client logic

gbp is a Genshin Impact build planner: a PocketBase server written in Go
holds the game dictionaries (characters, weapons, artifact sets, artifact
types, specials, domains, elements, weapon types) and the users' plans, and
a React client edits the plans. This project models two parts of it in
Dafny and proves what they promise.

**The dictionary seed pipeline (Go).**
- `Seed` reads every dictionary kind from an SQLite dump. It upserts the records by id, in a fixed order, inside one transaction. It then records the dump's SHA-256 hash as the dictionary version (`internals/seed`).
- `Dump` recreates each table of the dump file. It writes every record, icons included, and saves a `_dbDumps` record holding the file and its hash.
- At startup, `main.go` compares the hash of the dump file with the saved dumps and re-seeds only when it differs.
- Also modelled:
  - the older name-keyed seed in `seed/`;
  - the app-setting upsert;
  - the weapon-plan tag migration and its inverse.
- PocketBase is modelled as a value `Store`: tables as sequences of records in insertion order, plus uploaded files. A `Faults` oracle names the lookups and saves that fail.
- A transaction yields the new store or leaves the old one.
- SHA-256 is a function parameter. Its lower-case hex text is modelled and proved injective.

**The client (TypeScript).**
- The optimistic-mutation reducers: three variants, each with a batch state machine.
- The plan stores:
  - the jotai atoms;
  - the `PlansStore` classes;
  - the new-character-plan and pending-plan stores with their retry ladders.
- Drag-and-drop reorder and the batches it sends.
- Pagination, and merging render items with the "create" sentinel.
- Filters and filter panels.
- The aggregation of domains of blessing and of specials by artifact type.
- The edit rules of the plan and build cards: teams, artifact sets and specials, talents, the bounded number input.
- Small utilities:
  - `mapGetOrSetDefault`;
  - `retryPromise`;
  - log-level gating;
  - `getShortName`.

**How the model is built.**
- Code that changes state step by step is imperative Dafny: a class with `modifies` clauses, or a method with a loop. Each is proved against a specification function.
- The properties are proved as lemmas about those functions.
- JavaScript's `Map` and `Set` keep insertion order, so they are modelled as a key sequence plus a map (`JsCollections`).
- `Array.prototype.sort` is stable. It is modelled as a stable sort by key, `Lists.SortBy`, proved sorted and a permutation. `ArraySort.SortInPlace` is an in-place array sort proved equal to it.
- `Math.random`, `Date.now`, fuzzy search, immer patches and the network outcomes are parameters.

## Model

| member | source | states |
|---|---|---|
| Lists.FindIndex | ui/src/api/plans/utils.ts:72 | `findIndex` is -1 exactly when no element satisfies the test, and otherwise the first index that does |
| Lists.RemoveAllLength | ui/src/components/plan-card/ui/artifact-substats.tsx:43 | removing by predicate drops exactly the occurrences of the value (`removeByPredMut` taken to remove every match) |
| Lists.ArrayMove | ui/src/lib/handle-reorder.ts:29 | `arrayMove` puts the item from `from` at `to`, keeps the others in relative order and is a permutation |
| Lists.Slice | ui/src/components/builds.tsx:35-38 | `slice(start, end)` with negative and out-of-range arguments: length and elements taken from the normalised start |
| Lists.SortBySortedPermutation | ui/src/store/plans/renderingItems.ts:62 | `sort((a, b) => a.order - b.order)` leaves the items ordered by key and is a permutation of them |
| Lists.SortByStable | ui/src/store/plans/renderingItems.ts:62 | the sort is stable: items with equal keys keep their input order |
| Lists.SortByDescending | ui/src/store/plans/plans.ts:90 | `sort((a, b) => b.order - a.order)` puts higher keys first and is a permutation |
| ArraySort.SortInPlace | ui/src/routes/_protected/builds.tsx:160 | `array.sort` with a key-difference comparator rearranges the array in place into the stable sort of its old contents |
| JsCollections.OMap.Set | ui/src/lib/map-get-or-set-default.ts:18 | `map.set` stores the value; a new key goes last in iteration order, an existing key keeps its place |
| JsCollections.OMap.Values | ui/src/store/plans/pendingPlans.ts:44 | `map.values()` yields the values in key insertion order |
| JsCollections.OSet.Toggle | ui/src/components/build-card/ui/character-picker.tsx:81-91 | the filter button toggle: the clicked value flips membership, every other value keeps it |
| JsCollections.SetOf | ui/src/components/build-card/ui/teams.tsx:125 | `new Set(ks)` holds exactly the listed values, each once |
| MapGetOrSetDefault.GetOrSetDefault | ui/src/lib/map-get-or-set-default.ts:12-21 | the returned value is the map's value for the key; a missing key gets the default appended, a present key leaves the map unchanged |
| MapGetOrSetDefault.GetOrSetDefaultIdempotent | ui/src/lib/map-get-or-set-default.ts:12-21 | a second call with the same key changes nothing and returns the same value |
| MapGetOrSetDefault.MapGetOrSetDefault | ui/src/lib/map-get-or-set-default.ts:12-21 | on a live map: the factory runs exactly when the key was missing, and the map and value are those of `GetOrSetDefault` |
| HandleReorder.Renumber | ui/src/lib/handle-reorder.ts:30-35 | the renumbered list has orders 1..n and the same ids and fields in the same order |
| HandleReorder.Reorder | ui/src/lib/handle-reorder.ts:8-36 | `onReorder` is called exactly when the drop target exists, differs from the dragged id and both ids are listed; the list it gets is numbered 1..n |
| HandleReorder.FoundIffListed | ui/src/lib/handle-reorder.ts:17-18 | `findIndex` by id finds an item exactly when the id is listed |
| HandleReorder.ReorderMovesDragged | ui/src/lib/handle-reorder.ts:17-35 | the dragged item lands at the drop target's index, the others keep their relative order, and nothing is lost or duplicated |
| RetryPromise.FirstOk | ui/src/lib/retry-promise.ts:17-28 | the first attempt within the budget that succeeds, or -1 exactly when every attempt fails |
| RetryPromise.Retry | ui/src/lib/retry-promise.ts:11-29 | with a budget of zero or less the promise rejects with the unreachable-branch error |
| RetryPromise.RunOutcome | ui/src/lib/retry-promise.ts:17-28 | with a positive budget the promise resolves with the first success, or rejects with the last attempt's error when all fail |
| RetryPromise.RetryPromise | ui/src/lib/retry-promise.ts:11-29 | the loop's result equals `Retry`; `fn` is called up to the first success (or `retries` times) and it sleeps once less than it calls |
| Logger.Rank | ui/src/store/logger.ts:5-12 | the levels' ranks are 0..5, trace lowest and off highest |
| Logger.RankInjective | ui/src/store/logger.ts:5-12 | no two levels share a rank |
| Logger.OffSilencesErrorPasses | ui/src/store/logger.ts:31-32 | at level off nothing is logged; an error message passes at every other level |
| Logger.ShouldLogMonotone | ui/src/store/logger.ts:31-32 | lowering the current level never silences a message that passed |
| Logger.InitialLevel | ui/src/store/logger.ts:22 | the persisted level wins; without one the level is trace in development and off otherwise |
| Logger.LoggerStore.constructor | ui/src/store/logger.ts:19-29 | the store starts at the initial level |
| Logger.LoggerStore.Log | ui/src/store/logger.ts:35-54 | a message reaches the console exactly when its rank is at least the current level's |
| Logger.LoggerStore.Enable | ui/src/store/logger.ts:56-57 | `enable` sets the given level (debug by default) |
| Logger.LoggerStore.Disable | ui/src/store/logger.ts:58 | `disable` sets off, after which no message passes |
| HexDigest.Hex | internals/seed/dictionaries.go:63 | `%x` of the digest: two lowercase hex digits per byte |
| HexDigest.DigitValue | internals/seed/dictionaries.go:63 | a character has a digit value exactly when it is a lowercase hex digit, and the value prints back as that digit |
| HexDigest.UnHexHex | internals/seed/dictionaries.go:63 | the printed digest reads back as the bytes it came from |
| HexDigest.HexInjective | internals/seed/dictionaries.go:58-63 | distinct digests give distinct version strings |
| JsonArray.HexValue | internals/seed/models.go:244 | a hex digit of either case has its value; the digits `json.Marshal` writes read back as the number they encode |
| JsonArray.ParseEscapedString | internals/seed/models.go:244 | a string escaped as `json.Marshal` escapes it, followed by its closing quote, reads back as itself |
| JsonArray.ParseMarshalledElements | internals/seed/models.go:244 | the elements of a marshalled non-empty list read back as the list |
| JsonArray.UnmarshalMarshal | internals/seed/models.go:244 | scanning the text `json.Marshal` writes for a `[]string` gives back the same list, in order |
| Utf8.EncodeChar | internals/seed/models.go:244-252 | each character becomes one to four bytes |
| Utf8.Encode | internals/seed/models.go:244-252 | the bytes of a text: at least one and at most four per character |
| Utf8.DecodeEncodeChar | internals/seed/models.go:204 | decoding the head of an encoded text gives its first character and the remaining bytes |
| Utf8.DecodeEncode | internals/seed/models.go:204 | reading back the UTF-8 bytes of a text gives the text |
| Utf8.EncodeDecodeChar | main.go:60 | the head character decoded from valid bytes encodes back to exactly the bytes it was read from |
| Utf8.EncodeDecodeThree | main.go:60 | a three-byte character decoded from valid bytes encodes back to those bytes |
| Utf8.EncodeDecodeFour | main.go:60 | a four-byte character decoded from valid bytes encodes back to those bytes |
| Utf8.EncodeDecode | main.go:60 | valid UTF-8 read as text and encoded again gives the same bytes, so the text stands for the bytes Go keeps |
| DumpDatabase.InsertInto | internals/seed/models.go:57-60 | an insert succeeds exactly when the table exists, the row's columns are declared and its id is new, and appends the row |
| DumpDatabase.DumpDb.constructor | internals/seed/dictionaries.go:83-87 | a connection opens onto the file's tables |
| DumpDatabase.DumpDb.SelectAll | internals/seed/utils.go:33 | `select *` gives the table's rows in order, and fails on a missing table |
| DumpDatabase.DumpDb.DropTable | internals/seed/models.go:35 | a drop removes the table, or leaves the tables as they were when it fails |
| DumpDatabase.DumpDb.CreateTable | internals/seed/models.go:36 | a create adds an empty table with the given columns, and fails when the name is taken |
| DumpDatabase.DumpDb.Insert | internals/seed/models.go:57 | the connection's tables become those of `InsertInto`, or stay unchanged with its error |
| DumpDatabase.DumpDb.Close | internals/seed/dictionaries.go:265 | closing keeps the tables and marks the connection closed |
| RecordStore.NonzeroUniques | internals/seed/models.go:244 | the non-empty strings of the list, each once, in first-occurrence order (what `GetStringSlice` returns) |
| RecordStore.NonzeroUniquesKeeps | internals/seed/models.go:244 | a list without duplicates or empty strings reads back unchanged |
| RecordStore.FindRecordById | internals/seed/utils.go:21 | `FindRecordById` finds a record with the id; `NoRows` exactly when the lookup does not fail and no record has the id |
| RecordStore.FindFirstByData | internals/models/app_setting.go:42 | `FindFirstRecordByData` finds a record holding the value; `NoRows` exactly when the lookup does not fail and none holds it |
| RecordStore.SaveRecord | internals/seed/models.go:53 | `app.Save` fails on a missing collection, validates required and unique fields, and otherwise replaces or appends the record and leaves every other collection alone |
| RecordStore.SaveFreshAppends | internals/seed/utils.go:23-25 | a record saved under an id its collection lacks is appended |
| RecordStore.PersistedKeeps | internals/seed/models.go:53 | the stored record keeps its id and every field other than the file field |
| RecordStore.Upsert | internals/seed/models.go:53 | the saved record replaces the one with its id or is appended; other records stay; ids stay unique |
| RecordStore.App.Save | internals/seed/models.go:53 | on the live store: the new store on success, the error and an unchanged store on failure |
| SeedUtils.UpsertRecordById | internals/seed/utils.go:16-28 | the stored record with the id, or a new record carrying only the id when none exists; an error only for a missing collection or a failed lookup |
| SeedUtils.Slug | internals/seed/utils.go:50 | the lowered name with every space and apostrophe replaced by `_`, same length |
| SeedUtils.SlugIdempotent | internals/seed/utils.go:50 | slugging a slug changes nothing |
| SeedUtils.Ext | internals/seed/utils.go:50 | `filepath.Ext`: a suffix of the path that starts with its last dot and holds no separator, or empty |
| SeedUtils.ExtOfStoredFile | internals/seed/utils.go:47-50 | the extension of the stored file's path is the extension of the file's name |
| SeedUtils.GetFileContent | internals/seed/utils.go:45-67 | succeeds exactly when the file exists and both reads succeed, giving its whole contents and the slugged name; a short read is `File read corruption` |
| SeedModels.TableNameInjective | internals/models/collections.go:1-20 | no two entity kinds share a dump table |
| SeedModels.SchemaColumns | internals/seed/models.go:210-221 | each `create*Table` declares exactly the columns its `Dump` inserts |
| SeedModels.SchemaDeclarations | internals/seed/models.go:34-43 | every data column is declared with its type; only a weapon's special and a character's element lack NOT NULL |
| SeedModels.ColumnsReserved | internals/seed/models.go:201-208 | the data columns never clash with the id, the icon columns or the record's icon field |
| SeedModels.ScanValue | internals/seed/models.go:204 | one struct field from its column: a missing column gives the zero value, a JSON list is read from text or from UTF-8 bytes, a mistyped value fails; a result always has the column's type |
| SeedModels.Scan | internals/seed/utils.go:33 | a scanned row has exactly the kind's data columns, each of its declared type, and an icon exactly for icon kinds |
| SeedModels.ScanAll | internals/seed/utils.go:32-35 | `All(&items)` scans every row in order, or fails when some row fails to scan |
| SeedModels.NewFileFromBytes | internals/seed/models.go:231-234 | the upload is refused exactly when the content is empty |
| SeedModels.WithValues | internals/seed/models.go:228-230 | `record.Set` of each data column: those fields take the item's values and every other field is kept |
| SeedModels.Seed | internals/seed/models.go:223-237 | on the live store: find or make the record by id, set its fields and icon, save; the store is unchanged when a step fails |
| SeedModels.DumpRow | internals/seed/models.go:248-255 | the inserted row has exactly the table's columns and the record's id |
| SeedModels.Dump | internals/seed/models.go:239-257 | reads the icon (when the kind has one), then inserts the row; the dump tables are unchanged when a step fails |
| SeedModels.CreateFresh | internals/seed/models.go:210-221 | `create*Table` succeeds exactly when no failed drop leaves the old table and the create does not fail; the table is then empty with the kind's columns and other tables are kept |
| SeedModels.CreateTable | internals/seed/models.go:210-221 | drops the table ignoring the error, then creates it; the result is `CreateFresh` |
| SeedModels.DumpRowColumn | internals/seed/models.go:248-255 | each data column of the dumped row holds the value read from the record |
| SeedModels.ScanReadColumn | internals/seed/models.go:244-252 | scanning one column `Dump` wrote restores the typed value; a JSON list BLOB reads back in full |
| SeedModels.ScanDumpRow | internals/seed/models.go:239-257 | scanning a dumped row gives back the record's id, its typed columns and the icon |
| SeedModels.DumpSeedRoundTrip | internals/seed/models.go:223-257 | dumping a well-typed record and seeding the row back onto it leaves every data column as it was |
| SeedModels.SeedSucceeds | internals/seed/models.go:223-237 | with the collection present, no lookup or save failure and a non-empty icon, `Seed` succeeds (relation checks are not modelled) |
| SeedModels.SeedEmptyIcon | internals/seed/models.go:231-234 | an icon kind given an empty icon stops with the empty-file error before saving |
| SeedModels.SeedStores | internals/seed/models.go:223-237 | after a successful `Seed` the collection holds a record with the item's id, values and icon name |
| SeedModels.SeedStoresIcon | internals/seed/models.go:231-236 | a seeded icon is written under the record's files path and nothing else in file storage changes |
| SeedModels.SeedSaved | internals/seed/models.go:224-236 | the record handed to the save has the item's id, values and upload |
| SeedModels.SeedIconlessKeepsFiles | internals/seed/models.go:45-54 | kinds without an icon never touch file storage when seeded |
| SeedModels.DumpIconlessRow | internals/seed/models.go:56-64 | kinds without an icon dump no icon columns |
| SeedCollections.SeedCollection | internals/seed/utils.go:30-43 | on the live store: the store and error are those of `SeedTable`: the dump table read and scanned, then each row seeded until one fails |
| SeedCollections.SeedItems | internals/seed/utils.go:37-42 | the loop seeds the items in order and stops at the first failure, keeping the saves before it (`SeedAll`) |
| SeedCollections.SeedStepKeeps | internals/seed/models.go:45-54 | seeding one item leaves the records of every other id in place |
| SeedCollections.SeedAllKeeps | internals/seed/utils.go:37-42 | a completed run leaves in place a record no later item shares an id with |
| SeedCollections.SeedAllStoresEach | internals/seed/utils.go:37-42 | a completed run over items with distinct ids stores every one of them with its values and icon name |
| SeedCollections.SeedAllValid | internals/seed/utils.go:37-42 | a run keeps the ids of every collection unique |
| SeedCollections.DumpCollection | internals/seed/utils.go:69-84 | on the live dump: the tables and error are those of `DumpTable`: every record of the collection dumped until one fails |
| SeedCollections.DumpRecords | internals/seed/utils.go:76-80 | the loop dumps the records in order and stops at the first failure (`DumpAll`) |
| SeedCollections.DumpStepAppends | internals/seed/models.go:239-257 | a successful dump of one record appends that record's row to the kind's table |
| SeedCollections.AppendedRows | internals/seed/utils.go:76-80 | each appended row carries its record's id and exactly the table's columns |
| SeedCollections.DumpAllAppends | internals/seed/utils.go:69-84 | a completed dump run appends one row per record, in order, and keeps the table's columns |
| SeedCollections.AppendedAll | internals/seed/utils.go:76-80 | a completed run appends a row for every record |
| SeedCollections.DumpAllOthers | internals/seed/utils.go:69-84 | a dump run, complete or not, changes no table but the kind's own |
| SeedDictionaries.SeedOrderDistinct | internals/seed/dictionaries.go:89-125 | the seed order lists each of the nine kinds exactly once |
| SeedDictionaries.GetSeedHash | internals/seed/dictionaries.go:52-65 | the file's bytes through SHA-256, printed as lowercase hex; an open or read failure is returned |
| SeedDictionaries.SameHashSameDigest | internals/seed/dictionaries.go:52-65 | equal hashes come from files whose digests are equal |
| SeedDictionaries.AsciiRoundTrip | internals/seed/dictionaries.go:46 | the hex text written with `WriteString` reads back as the same text |
| SeedDictionaries.HashCommand | internals/seed/dictionaries.go:28-50 | `hash seed_file [dest_file]` prints the hash and, when a destination is named, writes it there; a failed hash or create is returned |
| SeedDictionaries.HashFileHoldsHash | internals/seed/dictionaries.go:42-47 | a written hash file reads back as the hex hash of the dump |
| SeedDictionaries.VersionUpdate | internals/seed/dictionaries.go:67-77 | the dump's hash upserted under `dictionaryVersion` |
| SeedDictionaries.UpdateDictionaryVersion | internals/seed/dictionaries.go:67-77 | on the live store: the result of `VersionUpdate`, the store unchanged on failure |
| SeedDictionaries.SeedKindsInOrder | internals/seed/dictionaries.go:90-125 | the nine `seedCollection` calls in order, stopping at the first failure (`SeedKinds`) |
| SeedDictionaries.SeedTransaction | internals/seed/dictionaries.go:89-130 | the kinds then the version inside `RunInTransaction`; a failure restores the store |
| SeedDictionaries.Seed | internals/seed/dictionaries.go:79-137 | connect to the dump file, then the transaction; the store and error are those of `SeedRun`, and the connection is closed on every path after it opened |
| SeedDictionaries.SeedKindsValid | internals/seed/dictionaries.go:89-125 | seeding the kinds keeps record ids unique in every collection |
| SeedDictionaries.SeedSetsVersion | internals/seed/dictionaries.go:126 | after a successful seed the dictionary version is the hash of the seeded dump file |
| SeedDictionaries.BaseName | internals/seed/dictionaries.go:168 | `filepath.Base`: the last path element, `.` for an empty path, `/` for a path of slashes |
| SeedDictionaries.SaveDumpAppends | internals/seed/dictionaries.go:155-176 | a dump saved under a fresh id is appended to the dumps collection with the file's digest and the given notes |
| SeedDictionaries.SaveDumpSaves | internals/seed/dictionaries.go:155-176 | a successful `SaveDump` is the save of the record built from the file and its hash |
| SeedDictionaries.SaveDumpRecord | internals/seed/dictionaries.go:155-176 | on the live store: the result of `SaveDump`, the store unchanged on failure |
| SeedDictionaries.SaveDumpRecords | internals/seed/dictionaries.go:166-175 | a recorded dump holds the file's hash, name and notes, and the file is stored under the record |
| SeedDictionaries.SaveDumpSameHash | internals/seed/dictionaries.go:175 | a dump whose hash is already recorded under another id is refused by the unique index on `hash` |
| SeedDictionaries.DumpKind | internals/seed/dictionaries.go:195-200 | a `create*Table` then its `dumpCollection` (`DumpKindStep`) |
| SeedDictionaries.DumpKindsInOrder | internals/seed/dictionaries.go:194-259 | the nine create-and-dump pairs in order, stopping at the first failure (`DumpKinds`) |
| SeedDictionaries.Dump | internals/seed/dictionaries.go:178-268 | file storage, connection, the transaction, then `SaveDump` only after a commit; the disk, store and error are those of `DumpRun`, and the dump connection stays open when the transaction fails |
| SeedDictionaries.DumpKindStepTables | internals/seed/dictionaries.go:195-200 | a completed step fills its kind's table and leaves every other table alone |
| SeedDictionaries.DumpKindsTables | internals/seed/dictionaries.go:194-259 | a completed run over distinct kinds leaves each kind's table holding exactly its collection's records |
| SeedDictionaries.DumpKindsEveryKind | internals/seed/dictionaries.go:194-259 | a completed run leaves every dictionary kind's table holding exactly its collection's records |
| SeedDictionaries.DumpRunCommitted | internals/seed/dictionaries.go:193-267 | a dump that completes ran the whole transaction, wrote its tables to the dump file and recorded that file |
| SeedDictionaries.DumpWritesEveryKind | internals/seed/dictionaries.go:193-267 | a completed dump writes a file in which every kind's table holds exactly its collection's records |
| SeedDictionaries.CommitRecordsHash | internals/seed/dictionaries.go:261-267 | a successful commit records the hash of the file it wrote under the fresh id |
| SeedDictionaries.DumpRecordsHash | internals/seed/dictionaries.go:178-268 | a completed dump records the hash of the dump file it wrote |
| SeedDictionaries.NewFileFromPath | internals/seed/dictionaries.go:168-171 | the file is read iff the path is on disk and the read does not fail, and it is named after the path's last element |
| SeedDictionaries.DumpRecordPersisted | internals/seed/dictionaries.go:166-175 | the stored dump record keeps the hash, the dump file's name and the notes, and the upload lands under the record |
| Startup.ReadFile | main.go:56-60 | reading a file succeeds exactly when it exists and the read does not fail, and gives its bytes |
| Startup.Note | main.go:60 | an unreadable note file gives an empty note; a note file in UTF-8 gives the text whose UTF-8 is exactly the file's bytes, as `string(note)` keeps them |
| Startup.LatestDumps | main.go:66 | the newest-first, one-record query of the dump collection succeeds exactly when the collection is found; it gives the last-created dump, or nothing when there are none |
| Startup.AnyDumpHasHash | main.go:68-73 | the loop finds a match exactly when some listed dump's `hash` equals the hash file's text |
| Startup.UpdateSeed | main.go:54-82 | the start-up check leaves the store and error that the decision chain specifies: read failure, stored version match, latest dump match, then dump record and seed |
| Startup.UnreadableHashChangesNothing | main.go:56-59 | an unreadable hash file is returned as the error and nothing is written |
| Startup.HashFileBytes | internals/seed/dictionaries.go:40-47 | the hash file holds two bytes per digest byte |
| Startup.HashFileText | internals/seed/dictionaries.go:40-47 | the hash file read back as a string is the dump's hex digest, so it compares equal with the stored hashes |
| Startup.HexIsAscii | internals/seed/dictionaries.go:63 | every character of the hex digest fits in one byte |
| Startup.MatchingHashStops | main.go:61-74 | when the `dictionaryVersion` setting or the latest dump already carries exactly the hash file's text, nothing is written and no error is returned |
| Startup.SeedLeavesMatch | main.go:54-82 | after a run without error, the version setting or the latest dump carries the dump's digest |
| Startup.SeededStoreIsUpToDate | main.go:54-82 | a second start with the same hash file after a successful one seeds nothing |
| Startup.SaveDumpBecomesLatest | main.go:66-75 | a dump recorded under a fresh id becomes the latest dump and carries the dump file's digest |
| Startup.SavedNoteKeepsFileBytes | main.go:60-75 | the dump recorded at start-up is the one latest dump, and its notes encode to exactly the bytes of a UTF-8 note file |
| Startup.LatestIsAppended | main.go:66 | the record created last is the one the newest-first query returns |
| Startup.FailedSeedNotRetried | main.go:75-80 | the dump record is saved outside the seed's transaction, so when seeding fails the next start finds its hash and does not seed again |
| Startup.LoadedCollections | main.go:44-52 | each listed collection exists and carries its store id; no more entries than names |
| Startup.LoadCollectionsDictionary | main.go:44-52 | the loop returns the existing plan collections in `PLANS_COLLECTIONS` order |
| Startup.Names | main.go:48 | the names of the listed collections, position by position |
| Startup.LoadedCollectionsInOrder | main.go:44-52 | the names returned are exactly the names that exist, in the given order |
| Startup.PlanCollectionsListed | main.go:36-52 | at most five collections are listed, and every existing plan collection is |
| LegacySeed.Collection | seed/dictionaries.go:31-59 | each of the eight kinds saves to its own collection, never to domains of blessing, and its file field is `icon` |
| LegacySeed.ScanEntry | seed/models.go:21-174 | a scanned row becomes the struct of the kind it was read for; a column of the wrong type is a scan error |
| LegacySeed.ScanEntries | seed/dictionaries.go:31 | every row of the table is scanned, in order, or the scan fails |
| LegacySeed.UpsertByName | seed/models.go:26 | the record found by name, or a new record holding only the name under the id the store assigns; either carries the name |
| LegacySeed.Resolve | seed/models.go:97-101 | a name resolves exactly when the lookup by name finds a record, and gives that record's id |
| LegacySeed.ResolveAll | seed/models.go:95-103 | every special name resolved to its id, position by position |
| LegacySeed.ResolveAllFirstFailure | seed/models.go:96-100 | a failed resolution reports the first name that does not resolve, and every name before it resolves |
| LegacySeed.ResolveAllStops | seed/models.go:96-100 | once a prefix of the names fails, every longer prefix fails with the same error |
| LegacySeed.ResolveSpecials | seed/models.go:95-102 | the loop collects the ids of `ResolveAll`, or returns its error |
| LegacySeed.SetRelation | seed/models.go:151-157 | a nil relation leaves the record as it is; a resolved one changes only that field |
| LegacySeed.FillArtifactType | seed/models.go:95-103 | setting the specials changes only the `specials` field |
| LegacySeed.FillWeapon | seed/models.go:145-157 | a weapon's save sets only rarity, weapon type and special, and a nil special keeps the stored special |
| LegacySeed.FillCharacter | seed/models.go:181-198 | a character's save sets only rarity, element, weapon type and special, and a nil element keeps the stored element |
| LegacySeed.SetRarityAndElement | seed/models.go:181-188 | the rarity and the optional element are the only fields changed |
| LegacySeed.SetTypeAndSpecial | seed/models.go:189-198 | the weapon type and the special are the only fields changed |
| LegacySeed.Fill | seed/models.go:95-198 | a kind's field setting keeps the id and every field the kind does not set |
| LegacySeed.AttachIcon | seed/models.go:44-48 | the icon upload changes only `icon`, and kinds without an icon are left as they are |
| LegacySeed.Prepared | seed/models.go:25-205 | the saved record is the one found or created by name, keeps its id and name, and differs only in the fields its kind sets |
| LegacySeed.Save | seed/models.go:25-205 | a kind's `Save` leaves the store `SaveEntry` gives, or the store unchanged with the error |
| LegacySeed.SavedTable | seed/models.go:25-205 | a save upserts the prepared record by id into the kind's collection |
| LegacySeed.SaveKeepsName | seed/models.go:26-30 | after a save the collection holds a record with the entry's name |
| LegacySeed.SaveReusesNamed | seed/models.go:26-30 | an existing record with that name is rewritten under its own id and no record is added |
| LegacySeed.SaveAddsUnnamed | seed/models.go:26-30 | without a record of that name, one record is appended under the new id |
| LegacySeed.PreparedKeepsNil | seed/models.go:151-188 | a nil weapon special or character element leaves that field of the found record as it was |
| LegacySeed.PreparedIsFilled | seed/models.go:90-110 | the prepared record is the filled record with its icon attached |
| LegacySeed.FillKeepsNil | seed/models.go:151-188 | the fill step leaves a nil relation's field as it was |
| LegacySeed.NilRelationKeepsStored | seed/models.go:151-188 | a value already stored for a nil optional relation survives the save |
| LegacySeed.NameOnlySaves | seed/models.go:25-31 | specials and character roles save the found or new record as it is, a new one holding only its name |
| LegacySeed.SaveEntries | seed/dictionaries.go:31 | saving a table's entries stops at the first failure, keeping the saves before it |
| LegacySeed.LegacySeedCollection | seed/dictionaries.go:31 | one kind's table read, scanned and saved, with the first error returned |
| LegacySeed.Seed | seed/dictionaries.go:22-64 | a connection failure is returned; otherwise the kinds are seeded in order until one fails, and that failure is swallowed |
| LegacySeed.LegacyKindsKeepsPrefix | seed/dictionaries.go:31-61 | when a kind fails, the store is the one the kinds before it left, plus that kind's partial saves |
| LegacySeed.SaveEntryOthers | seed/models.go:25-205 | a save never touches another collection |
| LegacySeed.SaveAllOthers | seed/dictionaries.go:31 | saving a table never touches another collection |
| LegacySeed.LegacyKindsOthers | seed/dictionaries.go:31-61 | seeding the kinds never touches a collection outside them |
| LegacySeed.LegacySeedSkipsDomains | seed/dictionaries.go:22-64 | once connected the run reports no error, and it leaves the domains of blessing collection exactly as it was |
| WeaponPlansTags.UpTag | migrations/1746460952_weapon_plans_tags.go:15-20 | the up `CASE` never leaves a tag empty |
| WeaponPlansTags.DownTag | migrations/1746460952_weapon_plans_tags.go:44-49 | the down `CASE` never leaves a new-style tag name |
| WeaponPlansTags.DownUndoesUp | migrations/1746460952_weapon_plans_tags.go:15-49 | down after up gives the tag back exactly when it was not already `none`, `current` or `target` |
| WeaponPlansTags.UpUndoesDown | migrations/1746460952_weapon_plans_tags.go:15-49 | up after down gives the tag back exactly when it was neither empty nor `now` or `need` |
| WeaponPlansTags.TagsMapBetweenSelects | migrations/1746460952_weapon_plans_tags.go:15-67 | an empty or old select value becomes a new select value, and a new one becomes empty or an old one |
| WeaponPlansTags.RetagRecord | migrations/1746460952_weapon_plans_tags.go:15-20 | one row under the `CASE`: a text tag is renamed, a NULL or non-text tag and every other column are kept |
| WeaponPlansTags.RetagRows | migrations/1746460952_weapon_plans_tags.go:13-23 | the `UPDATE` without a `WHERE` retags every row, keeping their number and order |
| WeaponPlansTags.RowsRoundTrip | migrations/1746460952_weapon_plans_tags.go:13-52 | down after up restores every row when no row held a new-style tag |
| WeaponPlansTags.RowsConformAfterUp | migrations/1746460952_weapon_plans_tags.go:13-38 | after up, every row that held an empty or old tag holds one of the new select values |
| WeaponPlansTags.IndexOfName | migrations/1746460952_weapon_plans_tags.go:32 | `GetByName` finds the first field with that name, or reports none |
| WeaponPlansTags.IndexOfFieldId | migrations/1746460952_weapon_plans_tags.go:35 | the position of the field with that id, or none when no field has it |
| WeaponPlansTags.AddField | migrations/1746460952_weapon_plans_tags.go:35-39 | `Fields.Add` replaces the field with the same id where it stands, or appends the new field |
| WeaponPlansTags.TagField | migrations/1746460952_weapon_plans_tags.go:31-39 | the new select field is named `tag`, has the migration's values and keeps the old `tag` field's id |
| WeaponPlansTags.RetypedReplacesTag | migrations/1746460952_weapon_plans_tags.go:31-39 | an existing `tag` field is replaced in place under its own id and nothing else in the schema changes |
| WeaponPlansTags.RetypedAddsTag | migrations/1746460952_weapon_plans_tags.go:31-39 | without a `tag` field, the new one is appended under a generated id |
| WeaponPlansTags.RetypedHasOneTag | migrations/1746460952_weapon_plans_tags.go:31-39 | after either migration, the schema has exactly one `tag` field, with the migration's values |
| WeaponPlansTags.RetypedTwice | migrations/1746460952_weapon_plans_tags.go:31-68 | retyping twice leaves the `tag` field where it was, under its id, with the second values |
| WeaponPlansTags.RetagTable | migrations/1746460952_weapon_plans_tags.go:13-26 | the `UPDATE` succeeds exactly when the table exists and the write does not fail, and retags the weapon plans table only |
| WeaponPlansTags.Migrate | migrations/1746460952_weapon_plans_tags.go:12-40 | a failed `UPDATE` is returned and changes nothing; success means the rows were retagged and the schema's `tag` field replaced; a failed later step leaves the schemas as they were |
| WeaponPlansTags.UpThenDown | migrations/1746460952_weapon_plans_tags.go:12-70 | a successful up then down restores the rows, and the `tag` field keeps its place and id with the old values |
| WeaponPlansTags.Migrator.constructor | migrations/1746460952_weapon_plans_tags.go:12 | the migration starts from the given rows and schemas |
| WeaponPlansTags.Migrator.Apply | migrations/1746460952_weapon_plans_tags.go:12-40 | the rows, schemas and error become those `Migrate` specifies |
| WeaponPlansTags.Migrator.Up | migrations/1746460952_weapon_plans_tags.go:12-40 | the up migration with the new tag names and select values |
| WeaponPlansTags.Migrator.Down | migrations/1746460952_weapon_plans_tags.go:41-69 | the down migration with the old tag names and select values |
| AppSettings.FindByKey | internals/models/app_setting.go:40-48 | a found setting is stored and holds the key; `NoRows` exactly when the lookup runs and no setting holds the key |
| AppSettings.CreateAppSettings | internals/models/app_setting.go:50-61 | a new record with the key and value is saved, or the store is unchanged with the error; the record is returned even when the save fails |
| AppSettings.UpsertAppSettings | internals/models/app_setting.go:63-73 | the store becomes the upsert's, or is unchanged with its error; a lookup error other than no rows returns no setting |
| AppSettings.UpsertSaves | internals/models/app_setting.go:63-73 | the upsert saves a record with the key and value, under the found record's id or a fresh one |
| AppSettings.UpsertThenFind | internals/models/app_setting.go:40-73 | after a successful upsert, looking the key up finds the new value |
| AppSettings.UpsertLeavesOneHolder | internals/models/app_setting.go:63-73 | after a successful upsert, the saved record is the only setting holding the key |
| AppSettings.FindOnlyHolder | internals/models/app_setting.go:40-48 | a lookup that does not fail finds the only setting holding the key |
| AppSettings.UpsertKeepsOtherKeys | internals/models/app_setting.go:63-73 | every setting with another key is still stored after a successful upsert |
| AppSettings.OtherKeyOtherId | internals/models/app_setting.go:63-73 | a setting with another key never has the id the upsert saves under |
| AppSettings.UpsertCount | internals/models/app_setting.go:63-73 | an upsert adds one record exactly when no setting had the key, and otherwise none |
| AppSettings.UpsertLookupFailure | internals/models/app_setting.go:64-69 | a lookup failure other than no rows is returned and nothing is written |
| AppSettings.UpsertKeepsUniqueKeys | internals/models/app_setting.go:63-73 | a successful upsert keeps the settings' keys unique |
| CollectionMutation.Initial | ui/src/api/plans/utils/use-collection-mutation.ts:251-257 | the reducer starts with nothing queued and no batch, a well-formed state |
| CollectionMutation.CreateStep | ui/src/api/plans/utils/use-collection-mutation.ts:110-112 | a create stores the value under its id whatever was queued, and changes nothing else |
| CollectionMutation.UpdateStep | ui/src/api/plans/utils/use-collection-mutation.ts:114-131 | an update is dropped for an id the batch creates or either side deletes; a queued create takes the patches; otherwise the patches are appended to the id's queued update, created with the given value only when absent |
| CollectionMutation.DeleteStep | ui/src/api/plans/utils/use-collection-mutation.ts:133-147 | a delete is dropped for an id the batch creates or deletes; an unsent create is forgotten without queuing a delete; otherwise the id leaves the updates and joins the deletes |
| CollectionMutation.PrepareBatchStep | ui/src/api/plans/utils/use-collection-mutation.ts:149-160 | with a batch in flight nothing changes; otherwise the queued work becomes the batch in state pending and the queues are emptied |
| CollectionMutation.MergeUpdates | ui/src/api/plans/utils/use-collection-mutation.ts:178-188 | merging the pending updates into the batch's leaves exactly the ids of either |
| CollectionMutation.MergeStep | ui/src/api/plans/utils/use-collection-mutation.ts:179-187 | one id's pending patches are appended to the batch's entry, which takes the pending value only when absent; other ids keep theirs |
| CollectionMutation.MergeUpdatesAt | ui/src/api/plans/utils/use-collection-mutation.ts:178-188 | an id both sides update keeps the batch's value with the pending patches after the batch's; an id on one side keeps that side's update |
| CollectionMutation.RemoveKeys | ui/src/api/plans/utils/use-collection-mutation.ts:194-197 | the deleted ids leave the map and every other entry stays |
| CollectionMutation.RetryStep | ui/src/api/plans/utils/use-collection-mutation.ts:170-201 | a retried batch is pending; its deletes unite both sides; creates and updates unite both sides minus the deleted ids, the batch's create winning on a clash; the queues are emptied |
| CollectionMutation.RetryMergesUpdate | ui/src/api/plans/utils/use-collection-mutation.ts:178-188 | each update of a retried batch is the merged update of its id |
| CollectionMutation.SetBatchStateStep | ui/src/api/plans/utils/use-collection-mutation.ts:162-229 | done clears the batch; the state moves only along error to pending, scheduled to error and pending to scheduled; any other request changes nothing |
| CollectionMutation.OptimisticPatches | ui/src/api/plans/utils/use-collection-mutation.ts:427-430 | the optimistic mark comes first, and the error mark is there exactly while the batch has failed |
| CollectionMutation.ApplyAll | ui/src/api/plans/utils/use-collection-mutation.ts:435-441 | each value gets the same patches |
| CollectionMutation.NewRecords | ui/src/api/plans/utils/use-collection-mutation.ts:435-441 | the pending creates in order with the optimistic patches, then the batch's creates also marked blocked |
| CollectionMutation.BatchUpdated | ui/src/api/plans/utils/use-collection-mutation.ts:443-451 | the batch's updated records are those of the batch's updates, none without a batch |
| CollectionMutation.PendingUpdated | ui/src/api/plans/utils/use-collection-mutation.ts:452-470 | after the loop, the updated records are those of the batch or of the pending updates |
| CollectionMutation.PendingStep | ui/src/api/plans/utils/use-collection-mutation.ts:453-469 | a record the batch already updates gets the pending patches on top; any other gets its value with its patches and the optimistic mark |
| CollectionMutation.PendingUpdatedAt | ui/src/api/plans/utils/use-collection-mutation.ts:452-470 | each id's shown version after the whole loop, one id at a time |
| CollectionMutation.Deleted | ui/src/api/plans/utils/use-collection-mutation.ts:471-474 | the ids deleted on either side |
| CollectionMutation.KeptSubstitutesSurvivors | ui/src/api/plans/utils/use-collection-mutation.ts:476-485 | the kept records are exactly the undeleted ones, in order, each replaced by its updated version |
| CollectionMutation.KeptConsStep | ui/src/api/plans/utils/use-collection-mutation.ts:477-484 | a surviving record in front keeps the kept and surviving lists matched |
| CollectionMutation.ShadowRecords | ui/src/api/plans/utils/use-collection-mutation.ts:422-489 | null exactly when nothing is queued or in flight; otherwise the merged list, through `postUpdate` when there is one |
| CollectionMutation.Records | ui/src/api/plans/utils/use-collection-mutation.ts:501-502 | without queued or in-flight work, the hook returns the given records or the empty list |
| CollectionMutation.MergeKeeps | ui/src/api/plans/utils/use-collection-mutation.ts:475-486 | the merged list starts with the records deleted on neither side, in order, each replaced by its update |
| CollectionMutation.MergeAppendsCreates | ui/src/api/plans/utils/use-collection-mutation.ts:435-486 | after the kept records come the pending creates, then the batch's creates marked blocked, and nothing else |
| CollectionMutation.UpdatedAt | ui/src/api/plans/utils/use-collection-mutation.ts:443-470 | an updated record is shown with the batch's patches and the optimistic marks, then the pending patches; one only the pending side updates is shown from its value with the optimistic mark |
| CollectionMutation.ComputeUpdated | ui/src/api/plans/utils/use-collection-mutation.ts:443-470 | the memo's loops build the updated-records map `Updated` specifies |
| CollectionMutation.ComputeKept | ui/src/api/plans/utils/use-collection-mutation.ts:475-485 | the loop over the records builds `Kept` |
| CollectionMutation.ComputeMerge | ui/src/api/plans/utils/use-collection-mutation.ts:422-486 | the memo computes the merged list |
| CollectionMutation.Retried | ui/src/api/plans/utils/use-collection-mutation.ts:306-310 | asking for a retry changes the state only when the batch has failed |
| CollectionMutation.CreateJoinsFailedBatch | ui/src/api/plans/utils/use-collection-mutation.ts:312-316 | a record created while the batch has failed joins the batch at once, unless the batch already creates that id, and nothing stays queued |
| CollectionMutation.MergeAll | ui/src/api/plans/utils/use-collection-mutation.ts:178-188 | the loop merges the pending updates into the batch's in their order |
| CollectionMutation.MergeUpdatesStep | ui/src/api/plans/utils/use-collection-mutation.ts:178-188 | merging from one key on is merging that key, then the rest |
| CollectionMutation.StripDeleted | ui/src/api/plans/utils/use-collection-mutation.ts:194-197 | the loop takes each deleted id out of the batch's updates and creates |
| CollectionMutation.MutationReducer.constructor | ui/src/api/plans/utils/use-collection-mutation.ts:247-257 | the reducer starts in the initial state |
| CollectionMutation.MutationReducer.Create | ui/src/api/plans/utils/use-collection-mutation.ts:110-112 | the reducer's state becomes that of the create case |
| CollectionMutation.MutationReducer.Update | ui/src/api/plans/utils/use-collection-mutation.ts:114-131 | the reducer's state becomes that of the update case |
| CollectionMutation.MutationReducer.Delete | ui/src/api/plans/utils/use-collection-mutation.ts:133-147 | the reducer's state becomes that of the delete case |
| CollectionMutation.MutationReducer.PrepareBatch | ui/src/api/plans/utils/use-collection-mutation.ts:149-160 | the reducer's state becomes that of the prepare-batch case |
| CollectionMutation.MutationReducer.SetBatchState | ui/src/api/plans/utils/use-collection-mutation.ts:162-229 | the reducer's state becomes that of the set-state case |
| CollectionMutation.MutationReducer.Retry | ui/src/api/plans/utils/use-collection-mutation.ts:168-201 | the pending request on a failed batch leaves the state `RetryStep` specifies |
| CollectionMutation.MutationReducer.RetryHandler | ui/src/api/plans/utils/use-collection-mutation.ts:306-310 | the retry handler leaves the state `Retried` specifies |
| CollectionMutation.MutationReducer.CreateHandler | ui/src/api/plans/utils/use-collection-mutation.ts:312-316 | the record is queued under its own id, then a retry is asked for |
| CollectionMutation.MutationReducer.UpdateHandler | ui/src/api/plans/utils/use-collection-mutation.ts:318-328 | an edit without patches changes nothing; otherwise the update is queued, then a retry is asked for |
| CollectionMutation.MutationReducer.DeleteHandler | ui/src/api/plans/utils/use-collection-mutation.ts:330-334 | the delete is queued, then a retry is asked for |
| CollectionMutation.BatchRequests | ui/src/api/plans/utils/use-collection-mutation.ts:338-361 | the batch sends every update, then every create, then every delete, each in its queue's order |
| CollectionMutation.DeleteRequests | ui/src/api/plans/utils/use-collection-mutation.ts:356-359 | one delete request per deleted id, in order |
| CollectionMutation.UpdateRequests | ui/src/api/plans/utils/use-collection-mutation.ts:340-347 | one update request per queued update, its patches followed by the server patches |
| CollectionMutation.CreateRequests | ui/src/api/plans/utils/use-collection-mutation.ts:348-355 | one create request per queued create, without id and timestamps, then the server patches |
| CollectionMutation.BuildBatch | ui/src/api/plans/utils/use-collection-mutation.ts:338-360 | the three loops build the requests `BatchRequests` specifies |
| InnerCollectionMutation.QueuedIndex | ui/src/api/plans/utils/use-plans-inner-collection-mutation.ts:84-85 | the first waiting action for the id, looking only at the queue and never at the current action; none when no waiting action has it |
| InnerCollectionMutation.AddOrSetCurrent | ui/src/api/plans/utils/use-plans-inner-collection-mutation.ts:74-83 | an action is sent at once, in state pending, when nothing is being sent; otherwise it waits last; either way it is last in sending order |
| InnerCollectionMutation.CreateStep | ui/src/api/plans/utils/use-plans-inner-collection-mutation.ts:87-90 | a create always joins the end of the sending order |
| InnerCollectionMutation.UpdateStep | ui/src/api/plans/utils/use-plans-inner-collection-mutation.ts:91-101 | the first waiting action for the id decides: none enqueues the update, a create or delete swallows it, an update takes its patches in place |
| InnerCollectionMutation.DeleteStep | ui/src/api/plans/utils/use-plans-inner-collection-mutation.ts:102-111 | a waiting create or delete swallows the delete; a waiting update of the id is taken out; then the delete joins the end |
| InnerCollectionMutation.MarkStep | ui/src/api/plans/utils/use-plans-inner-collection-mutation.ts:112-149 | done sends the head of the queue next in state pending, or clears the current action; the other requests move only along error to pending, scheduled to error and pending to scheduled |
| InnerCollectionMutation.Move | ui/src/api/plans/utils/use-plans-inner-collection-mutation.ts:119-147 | a guarded transition changes only the current action's state, and only from the given state |
| InnerCollectionMutation.DoneTimes | ui/src/api/plans/utils/use-plans-inner-collection-mutation.ts:114-117 | repeated completions keep the state well formed |
| InnerCollectionMutation.SentInOrder | ui/src/api/plans/utils/use-plans-inner-collection-mutation.ts:74-117 | first in, first out: after k completed requests the k-th queued action is being sent, and after all of them nothing is left |
| InnerCollectionMutation.InnerReducer.constructor | ui/src/api/plans/utils/use-plans-inner-collection-mutation.ts:70-73 | the reducer starts with nothing queued and nothing being sent |
| InnerCollectionMutation.InnerReducer.AddOrSetCurrentAction | ui/src/api/plans/utils/use-plans-inner-collection-mutation.ts:74-83 | the reducer's state becomes that of `addOrSetCurrent` |
| InnerCollectionMutation.InnerReducer.Create | ui/src/api/plans/utils/use-plans-inner-collection-mutation.ts:87-90 | the reducer's state becomes that of the create case |
| InnerCollectionMutation.InnerReducer.Update | ui/src/api/plans/utils/use-plans-inner-collection-mutation.ts:91-101 | the reducer's state becomes that of the update case |
| InnerCollectionMutation.InnerReducer.Delete | ui/src/api/plans/utils/use-plans-inner-collection-mutation.ts:102-111 | the reducer's state becomes that of the delete case |
| InnerCollectionMutation.InnerReducer.MarkCurrent | ui/src/api/plans/utils/use-plans-inner-collection-mutation.ts:112-149 | the reducer's state becomes that of the mark-current case |
| InnerCollectionMutation.Records | ui/src/api/plans/utils/use-plans-inner-collection-mutation.ts:321-395 | the memo ends in a bare `return`, so the hook returns the given records, or the empty list |
| InnerCollectionMutation.Creates | ui/src/api/plans/utils/use-plans-inner-collection-mutation.ts:326-327 | the creates among the actions, each one of them |
| InnerCollectionMutation.UpdatedRecords | ui/src/api/plans/utils/use-plans-inner-collection-mutation.ts:336-346 | an updated record for exactly the ids some queued action updates |
| InnerCollectionMutation.DeletedIds | ui/src/api/plans/utils/use-plans-inner-collection-mutation.ts:347-349 | exactly the ids of the queued deletes |
| InnerCollectionMutation.NewRecords | ui/src/api/plans/utils/use-plans-inner-collection-mutation.ts:326-335 | one record per queued create, marked optimistic, and also blocked when it is the action being sent |
| InnerCollectionMutation.IntendedShadowRecords | ui/src/api/plans/utils/use-plans-inner-collection-mutation.ts:321-362 | the list the memo computes: null exactly when nothing is queued or being sent |
| InnerCollectionMutation.IntendedShadowShape | ui/src/api/plans/utils/use-plans-inner-collection-mutation.ts:350-361 | the computed list drops every record a queued action deletes, shows the rest in order with their updates, and ends with the new records |
| InnerCollectionMutation.CreateNotShown | ui/src/api/plans/utils/use-plans-inner-collection-mutation.ts:363-395 | while a create is being sent, the hook returns the records without it, where the computed list ends with it |
| PlansMutationQueue.AddOrSetCurrentScheduled | ui/src/api/plans/utils.ts:61-70 | with nothing being sent, the action is sent at once in state scheduled and the queue is untouched; otherwise it waits last |
| PlansMutationQueue.CreateStep | ui/src/api/plans/utils.ts:74-77 | a create is sent first when nothing is being sent, else it joins the end of the sending order |
| PlansMutationQueue.UpdateStep | ui/src/api/plans/utils.ts:78-89 | no waiting action for the id queues the update; a waiting create or delete swallows it; a waiting update takes the new value and the appended patches in place |
| PlansMutationQueue.DeleteStep | ui/src/api/plans/utils.ts:90-100 | no waiting action for the id queues the delete; a waiting create or delete swallows it; a waiting update is taken out and the delete itself is dropped |
| PlansMutationQueue.MarkStep | ui/src/api/plans/utils.ts:101-135 | done clears the current action and leaves the queue alone; error sets error, and pending and scheduled both set pending, whatever the state was |
| PlansMutationQueue.SetState | ui/src/api/plans/utils.ts:107-126 | the current action's state is set, and nothing else changes |
| PlansMutationQueue.NextActionJumpsQueue | ui/src/api/plans/utils.ts:61-105 | after a completed request, the next action dispatched is sent ahead of everything still waiting |
| PlansMutationQueue.PlansReducer.constructor | ui/src/api/plans/utils.ts:42-46 | the reducer starts with nothing queued and nothing being sent |
| PlansMutationQueue.PlansReducer.AddOrSetCurrent | ui/src/api/plans/utils.ts:61-70 | the reducer's state becomes that of `addOrSetCurrent` |
| PlansMutationQueue.PlansReducer.Create | ui/src/api/plans/utils.ts:74-77 | the reducer's state becomes that of the create case |
| PlansMutationQueue.PlansReducer.Update | ui/src/api/plans/utils.ts:78-89 | the reducer's state becomes that of the update case |
| PlansMutationQueue.PlansReducer.Delete | ui/src/api/plans/utils.ts:90-100 | the reducer's state becomes that of the delete case |
| PlansMutationQueue.PlansReducer.MarkCurrent | ui/src/api/plans/utils.ts:101-135 | the reducer's state becomes that of the mark-current case |
| DomainsOfBlessing.Contribution | ui/src/store/plans/domainsOfBlessing.ts:26-31 | a set of a plan counts exactly when its domain and its plan are both known, as that domain, the plan's character and the set |
| DomainsOfBlessing.AddSet | ui/src/store/plans/domainsOfBlessing.ts:27-37 | adding one set keeps every group's characters and sets duplicate-free |
| DomainsOfBlessing.AddSets | ui/src/store/plans/domainsOfBlessing.ts:26-38 | the groups after some of a plan's sets stay duplicate-free |
| DomainsOfBlessing.GroupsUpTo | ui/src/store/plans/domainsOfBlessing.ts:25-39 | the groups after some plans stay duplicate-free |
| DomainsOfBlessing.Entries | ui/src/store/plans/domainsOfBlessing.ts:40-46 | one entry per domain in the order domains were first met, with its characters and sets in insertion order |
| DomainsOfBlessing.ContributionsMeaning | ui/src/store/plans/domainsOfBlessing.ts:25-39 | a contribution comes from a set some plan asks for whose domain and plan are known |
| DomainsOfBlessing.ItemContributionsMeaning | ui/src/store/plans/domainsOfBlessing.ts:26-38 | a contribution of one plan comes from one of its sets whose domain and plan are known |
| DomainsOfBlessing.AddSetMatches | ui/src/store/plans/domainsOfBlessing.ts:27-37 | adding one set adds exactly its contribution to the groups |
| DomainsOfBlessing.AddSetSpec | ui/src/store/plans/domainsOfBlessing.ts:32-37 | a contribution puts its domain among the groups and its character and set in that domain's group, and nothing else |
| DomainsOfBlessing.ContributionMatches | ui/src/store/plans/domainsOfBlessing.ts:32-37 | groups that matched the other contributions match them all after one more |
| DomainsOfBlessing.KeysMatchAdded | ui/src/store/plans/domainsOfBlessing.ts:32 | the domains grouped after one more contribution are those of all of them |
| DomainsOfBlessing.CharactersMatchAdded | ui/src/store/plans/domainsOfBlessing.ts:36 | each group's characters after one more contribution are those of all of them |
| DomainsOfBlessing.SetsMatchAdded | ui/src/store/plans/domainsOfBlessing.ts:37 | each group's sets after one more contribution are those of all of them |
| DomainsOfBlessing.AddSetsMatches | ui/src/store/plans/domainsOfBlessing.ts:26-38 | the groups after some of a plan's sets hold exactly those sets' contributions |
| DomainsOfBlessing.GroupsMatch | ui/src/store/plans/domainsOfBlessing.ts:25-39 | the groups after some plans hold exactly those plans' contributions, by domain |
| DomainsOfBlessing.GroupSetsBelongToDomain | ui/src/store/plans/domainsOfBlessing.ts:25-39 | every set in a group is dropped by that domain and asked for by a plan with a known character |
| DomainsOfBlessing.GroupCharacters | ui/src/store/plans/domainsOfBlessing.ts:25-39 | a character is in a domain's group exactly when one of its plans asks for a set that domain drops |
| DomainsOfBlessing.AggregateSorted | ui/src/store/plans/domainsOfBlessing.ts:40-48 | the result is sorted by character count, most first, keeps first-met order among equal counts, and is a permutation of the entries |
| DomainsOfBlessing.AggregateDistinct | ui/src/store/plans/domainsOfBlessing.ts:40-48 | no domain occurs twice, and each entry's characters and sets are duplicate-free |
| DomainsOfBlessing.PermutationKeepsDistinctLists | ui/src/store/plans/domainsOfBlessing.ts:47 | reordering the entries keeps their lists duplicate-free |
| DomainsOfBlessing.AggregateDomains | ui/src/store/plans/domainsOfBlessing.ts:25-48 | the result names exactly the domains some contribution names |
| DomainsOfBlessing.DomainsOf | ui/src/store/plans/domainsOfBlessing.ts:40-46 | the entries' domains, position by position |
| DomainsOfBlessing.DomainsOfPermutation | ui/src/store/plans/domainsOfBlessing.ts:47 | reordering the entries keeps the same domains |
| DomainsOfBlessing.DistinctPermutation | ui/src/store/plans/domainsOfBlessing.ts:47 | reordering entries with distinct domains keeps them distinct |
| DomainsOfBlessing.CountTwo | ui/src/store/plans/domainsOfBlessing.ts:47 | a value at two positions is counted at least twice |
| DomainsOfBlessing.CountOne | ui/src/store/plans/domainsOfBlessing.ts:47 | an entry whose domain occurs once is counted once |
| DomainsOfBlessing.CollectGroups | ui/src/store/plans/domainsOfBlessing.ts:20-39 | the two loops fill the groups `GroupsUpTo` specifies |
| DomainsOfBlessing.AggregateSets | ui/src/store/plans/domainsOfBlessing.ts:15-49 | the atom collects, lists and sorts in place, giving `Aggregate` |
| DomainsOfBlessing.PlanLookups | ui/src/api/plans/domains-of-blessing.ts:13-29 | the domain of a set is the id of the domain the index gives; the character of a plan is the plan's character |
| DomainsOfBlessing.CharacterByBuildId | ui/src/components/build-card/build-domains-analysis.tsx:66-69 | the build id map holds exactly the listed build ids |
| DomainsOfBlessing.CharacterByBuildIdLastWins | ui/src/components/build-card/build-domains-analysis.tsx:66-69 | a build id maps to the character of the last build with that id |
| DomainsOfBlessing.BuildLookups | ui/src/components/build-card/build-domains-analysis.tsx:78-82 | `!domain \|\| !character` also skips an empty domain id or character |
| DictionaryHooks.AddSetsSpec | ui/src/api/dictionaries/hooks.tsx:57-59 | the sets added to the index are those of the domain, each mapped to it; other sets keep their domain |
| DictionaryHooks.LastListing | ui/src/api/dictionaries/hooks.tsx:56-60 | the last domain listing a set, when one does |
| DictionaryHooks.ByArtifactSetIdLastWins | ui/src/api/dictionaries/hooks.tsx:54-62 | a set is indexed exactly when some domain lists it, and maps to the last domain listing it |
| DictionaryHooks.ByArtifactSetIdKeys | ui/src/api/dictionaries/hooks.tsx:54-62 | every listed set is indexed, only those, each to a domain listing it |
| DictionaryHooks.GetDomainsByArtifactSetId | ui/src/api/dictionaries/hooks.tsx:54-62 | the two loops build the index `ByArtifactSetId` specifies |
| DictionaryHooks.RecordsMap | ui/src/api/dictionaries/hooks.tsx:31-38 | `createRecordsMap`: each id maps to a listed item with that id, and only listed ids are keys |
| DictionaryHooks.Provide | ui/src/api/dictionaries/hooks.tsx:78-125 | the context holds each stored collection's items, and the index by artifact set of the domains of blessing |
| DictionaryHooks.UseItem | ui/src/api/dictionaries/hooks.tsx:147-161 | an item found by the hook is the collection's item under that id |
| DictionaryHooks.DomainHookMissesIndexedDomain | ui/src/api/dictionaries/hooks.tsx:193-197 | as written, a domain the index by set returns is not found by its own id when no artifact type has it |
| DictionaryHooks.DomainHookFindsIndexedDomain | ui/src/api/dictionaries/hooks.tsx:193-200 | bound to the domains of blessing, the item hook finds every domain the index returns, under its own id |
| RenderingItems.BuildRenderItems | ui/src/store/plans/renderingItems.tsx:43-100 | the provider's filter, map, concatenation, in-place sort and sentinel push build the list `RenderItems` specifies |
| RenderingItems.CommittedAreKnownAndPassing | ui/src/store/plans/renderingItems.tsx:45-59 | a plan has a committed item exactly when its character is known and passes the filter |
| RenderingItems.SpecialsFilterHidesPending | ui/src/store/plans/renderingItems.tsx:66-73 | pending items are checked without a plan, so an active specials filter hides them all |
| RenderingItems.SentinelRule | ui/src/store/plans/renderingItems.tsx:88-97 | the sentinel is last and carries the committed count exactly when the shown committed and pending items fit in 130 and at most two are pending |
| RenderingItems.KeepPendingAndPage | ui/src/store/plans/renderingItems.tsx:107-108 | the filter step keeps pending items and items on the page, never more than the list |
| RenderingItems.MarkByFilteredIndex | ui/src/store/plans/renderingItems.tsx:109-111 | the map step marks each pending item visible by its index in the filtered list, keeping the length |
| RenderingItems.PaginateFrom | ui/src/store/plans/renderingItems.tsx:102-112 | the pagination with each pending item's visibility taken from its index in the whole list keeps no more than the list |
| RenderingItems.PaginateShowsPage | ui/src/store/plans/renderingItems.tsx:102-112 | the corrected pagination shows exactly the items on the page, in order, and keeps every other pending item hidden |
| RenderingItems.OnPageIsSlice | ui/src/store/plans/renderingItems.tsx:103-105 | the items a page should show are the slice from the start index to the end index, pending ones visible |
| RenderingItems.MarkVisible | ui/src/store/plans/renderingItems.tsx:110 | marking pending items visible keeps the length |
| RenderingItems.OnPageFrom | ui/src/store/plans/renderingItems.tsx:103-108 | the items on the page of a suffix are the matching slice |
| RenderingItems.OnPageBefore | ui/src/store/plans/renderingItems.tsx:105 | an item before the page is dropped and the page's slice moves down by one |
| RenderingItems.OnPageAtStart | ui/src/store/plans/renderingItems.tsx:105 | the first item on the page is shown first, visible when pending |
| RenderingItems.OnPageShift | ui/src/store/plans/renderingItems.tsx:105 | indices below the current one do not change which items are on the page |
| RenderingItems.OnPageShiftStart | ui/src/store/plans/renderingItems.tsx:105 | the window's start below the current index does not matter |
| RenderingItems.OnPageEmpty | ui/src/store/plans/renderingItems.tsx:105 | past the end index no item is on the page |
| RenderingItems.PendingShownOffPage | ui/src/store/plans/renderingItems.tsx:107-111 | as written, page 2 of [committed, committed, pending] with one item per page shows the pending item, which is not on that page |
| RenderingItems.Total | ui/src/store/plans/renderingItems.tsx:117 | the total is the length of the whole list, sentinel included |
| RenderingItemsList.BuildListItems | ui/src/store/plans/rendering-items.tsx:73-94 | the hook's filter, map and sentinel push build the list `ListItems` specifies |
| RenderingItemsList.ListShape | ui/src/store/plans/rendering-items.tsx:74-91 | the kept plans come first, in input order and unsorted, and the sentinel follows exactly when fewer than 80 are kept |
| RenderingItemsList.ListKeepsPlanOrder | ui/src/store/plans/rendering-items.tsx:74-84 | with every plan kept, item i is plan i |
| RenderingItemsList.ListPage | ui/src/store/plans/rendering-items.tsx:96-101 | the page is the slice at `perPage * (page - 1)`, at most `perPage` long |
| RenderingItemsList.SyncedTotal | ui/src/store/plans/rendering-items.tsx:103-107 | the shared total follows the list's length, and is left alone when it already matches |
| RenderingItemsAtom.AtomItems | ui/src/store/plans/renderingItems.ts:19-21 | a plans query error gives the empty list |
| RenderingItemsAtom.ComputeAtomItems | ui/src/store/plans/renderingItems.ts:19-70 | the atom's filter, map, concatenation, in-place sort and push build `AtomItems` |
| RenderingItemsAtom.AtomShape | ui/src/store/plans/renderingItems.ts:35-69 | the kept plans sorted by order and a permutation of them, then the sentinel exactly when the raw plan and pending counts allow it; no pending items, since they are filtered from an empty list |
| RenderingItemsAtom.AtomCommittedMembers | ui/src/store/plans/renderingItems.ts:27-47 | a plan has an item exactly when its character is known and passes the element, weapon type and name filter; the specials filter plays no part |
| RenderingItemsAtom.SentinelIgnoresFilter | ui/src/store/plans/renderingItems.ts:63-68 | whether the sentinel is offered does not depend on the filter |
| RenderLists.CommittedItems | ui/src/store/plans/renderingItems.tsx:43-61 | every committed item is a listed plan whose character is known and passes, with that character, and every such plan has its item |
| RenderLists.CommittedKeepsOrder | ui/src/store/plans/renderingItems.tsx:43-61 | when every plan is kept, the committed items are exactly the plans, in input order |
| RenderLists.PendingItems | ui/src/store/plans/renderingItems.tsx:63-82 | every pending item is a listed pending plan whose character is known and passes without a plan, not yet visible, and every such pending plan has its item |
| RenderLists.SortAndPush | ui/src/store/plans/renderingItems.tsx:84-100 | concatenating, sorting by order and pushing the sentinel when shown gives the merged list |
| RenderLists.MergedShape | ui/src/store/plans/renderingItems.tsx:84-100 | the merged list is the committed and pending items sorted by order and as a permutation, followed by the sentinel exactly when it is shown |
| RenderLists.MergedMembers | ui/src/store/plans/renderingItems.tsx:84-100 | an item is in the merged list iff it is a committed item, a pending item, or the shown sentinel |
| RenderLists.EqualOrdersKeepInputOrder | ui/src/store/plans/renderingItems.tsx:85-86 | the sort is stable: among equal orders the committed items come first, each kind in its input order |
| RenderLists.ItemsHaveNoSentinel | ui/src/store/plans/renderingItems.tsx:43-82 | the items built from plans and pending plans hold no sentinel |
| Pagination.PageSlice | ui/src/store/plans/rendering-items.tsx:96-101 | a page shows at most a page size of items |
| Pagination.TotalPages | ui/src/routes/_protected/builds.tsx:280 | the page count is zero only for an empty list, and otherwise the last page starts before the end and the pages cover the list |
| Pagination.ItemIsOnItsPage | ui/src/routes/_protected/builds.tsx:270-280 | item i appears on page i / perPage + 1 at position i % perPage, and that page is within the page count |
| Pagination.LastPageNonEmpty | ui/src/routes/_protected/builds.tsx:270-280 | the last page of a non-empty list is not empty |
| Pagination.Redirect | ui/src/routes/_protected/builds.tsx:316-320 | a page past the page count goes to the last page; any other page stays |
| Pagination.RedirectShowsItems | ui/src/routes/_protected/builds.tsx:316-320 | after the redirect a non-empty list shows a non-empty page, and an empty list goes to page 0 |
| Pagination.Range | ui/src/routes/_protected/builds.tsx:399-413 | the range holds the consecutive integers from a up to b - 1 |
| Pagination.LinkToDisplay | ui/src/routes/_protected/builds.tsx:399-413 | the loop pushes the links from max(2, page - 1) up to min(start + 3, totalPages) and sets the two ellipsis flags |
| Pagination.LinksBounds | ui/src/routes/_protected/builds.tsx:399-413 | at most three consecutive pages are linked, never the first or last, and the current page is among them when it is neither |
| Pagination.DotsMarkGaps | ui/src/routes/_protected.index.tsx:219-231 | the left ellipsis shows iff the page is above 3, and without an ellipsis the links reach page 2 or the page before the last |
| Filters.FiltersEnabled | ui/src/store/plans/filters.tsx:42-47 | the filter is on iff it differs from the empty filter |
| Filters.ElementAndWeaponPass | ui/src/store/plans/filters.tsx:116-120 | an empty set passes; a character without an element fails a non-empty element set; otherwise membership decides |
| Filters.SpecialsPass | ui/src/store/plans/filters.tsx:122-132 | with no specials selected every plan passes; otherwise it passes iff it has a plan with some artifact type plan whose special is selected |
| Filters.Any | ui/src/store/plans/filters.tsx:129-131 | true iff some artifact type plan has its special selected for its type |
| Filters.NamePasses | ui/src/store/plans/filters.tsx:134-136 | an empty name passes; otherwise the fuzzy match decides |
| Filters.CharactersIgnored | ui/src/store/plans/filters.tsx:111-142 | the characters selection never changes the verdict |
| Filters.EmptyFilterPasses | ui/src/store/filters.tsx:93-124 | the empty filter passes every character, with or without a plan |
| Filters.SpecialsFilterExcludesPlanless | ui/src/store/plans/filters.tsx:122-132 | with a specials filter on, an entry without a plan never passes |
| Filters.SimpleCharacterPasses | ui/src/store/plans/renderingItems.ts:27-33 | the older list's test is the full test with the specials filter off and no plan |
| Filters.AddPlan | ui/src/store/filters.tsx:78-88 | one iteration keeps the offered sets duplicate-free |
| Filters.AvailableMeaning | ui/src/store/plans/filters.tsx:96-106 | an offered element, weapon type or character comes from a plan with a known character, and every such plan offers its own (an empty element is not offered) |
| Filters.CollectAvailable | ui/src/store/plans/filters.ts:16-36 | the loop over the plans yields the offered values the specification function defines |
| BuildsPage.ComputeRenderItems | ui/src/routes/_protected/builds.tsx:126-168 | filtering and mapping both lists, concatenating, sorting in place and pushing the sentinel gives the page's render list |
| BuildsPage.RenderItemsShape | ui/src/routes/_protected/builds.tsx:126-168 | the list is the kept builds and pending builds, sorted by order and as a permutation, then the sentinel exactly when at most 130 builds with the pending ones and at most 10 pending exist |
| BuildsPage.BuildListedIffPasses | ui/src/routes/_protected/builds.tsx:133-145 | a build has an item iff it is listed, its character is known and the character passes the filter |
| BuildsPage.PendingListedIffPasses | ui/src/routes/_protected/builds.tsx:146-158 | a pending build has an item iff it is listed, its character is known and the character passes the filter |
| BuildsPage.ReorderBatch | ui/src/routes/_protected/builds.tsx:208-224 | the loop sends exactly the updates of the changed positions, in position order |
| BuildsPage.BatchHoldsChangedPositions | ui/src/routes/_protected/builds.tsx:213-222 | an update is sent iff its position has no cached item, another id or another order, and it carries the new id and order |
| BuildsPage.BatchSize | ui/src/routes/_protected/builds.tsx:208-224 | at most one update per position, and none when the list equals the cached one |
| BuildsPage.DragSendsMovedPositions | ui/src/routes/_protected/builds.tsx:282-284 | after a drag of a list numbered 1..n, exactly the positions whose item moved are sent, with their new position as order |
| BuildsPage.FilterOfSearch | ui/src/routes/_protected/builds.tsx:236-244 | the filter read from the search never holds specials |
| BuildsPage.SetParam | ui/src/routes/_protected/builds.tsx:297-312 | a field the patch leaves out keeps its search value; an empty selection is dropped from the search |
| BuildsPage.ChangeFilter | ui/src/routes/_protected/builds.tsx:286-314 | each carried field is stored or dropped when empty, each absent field keeps its value, and the page and page size stay |
| BuildsPage.ChangeFilterThenRead | ui/src/routes/_protected/builds.tsx:286-314 | storing a patch and reading the filter back equals applying the patch to the filter read before, minus the specials |
| BuildsPage.SetParamRead | ui/src/routes/_protected/builds.tsx:297-312 | a selection dropped from the search reads back as the empty selection |
| BuildsPage.PageFilterEnabledAgrees | ui/src/routes/_protected/builds.tsx:274-278 | the page's test agrees with the store's on filters read from the search, and holds iff some filter parameter is stored |
| BuildsPage.AvailableFilters | ui/src/routes/_protected/builds.tsx:249-268 | the offered sets stay duplicate-free |
| BuildsPage.AvailableFromBuilds | ui/src/routes/_protected/builds.tsx:249-268 | each offered value comes from a build whose character is known, and each such build offers its own (an empty element is not offered) |
| HomePage.PageDragEnd | ui/src/routes/_protected.index.tsx:154-169 | nothing without a target, on a drop on itself or for an unknown id; otherwise the orders continue from the earlier pages' builds |
| HomePage.PageDragEndShiftsReorder | ui/src/routes/_protected.index.tsx:154-169 | the page's handler is the shared reorder with every order raised by the number of builds on earlier pages, and is the shared reorder on page 1 |
| HomePage.PageDragEndMoves | ui/src/routes/_protected.index.tsx:162-166 | both handlers renumber the same moved list |
| HomePage.AllUpdates | ui/src/routes/_protected.index.tsx:133-141 | one update per item, changed or not, with its id and order, in list order |
| HomePage.ReorderBatch | ui/src/routes/_protected.index.tsx:133-141 | the loop sends the update of every item |
| HomePage.AllUpdatesCoverChanged | ui/src/routes/_protected.index.tsx:133-141 | every update the build list page would send for the same list is sent here too |
| HomePage.ShownPending | ui/src/routes/_protected.index.tsx:196 | the shown pending builds are a prefix of the pending builds |
| HomePage.PendingFillsPage | ui/src/routes/_protected.index.tsx:196 | builds and shown pending builds fill at most one page, and as many pending builds are shown as fit |
| HomePage.EmptyPageRedirect | ui/src/routes/_protected.index.tsx:171-175 | an empty page after the first redirects to the last page, and nothing else redirects |
| HomePage.EmptyPageRedirectLandsOnBuilds | ui/src/routes/_protected.index.tsx:171-175 | an empty page after the first is past the end, and the page redirected to shows builds when there are any |
| FilterPanels.Toggled | ui/src/components/build-card/build-filters.tsx:119-126 | the toggled element is added iff it was absent, and no other element changes |
| FilterPanels.ToggledTwice | ui/src/components/build-card/build-filters.tsx:119-126 | toggling the same button twice restores the set |
| FilterPanels.RemovedSpecial | ui/src/components/build-card/build-filters.tsx:204-217 | the type's selection loses the special, its key goes away when empty, and other types are untouched |
| FilterPanels.AddedSpecial | ui/src/components/build-card/build-filters.tsx:230-240 | the type's selection, created when missing, gains the special, and other types are untouched |
| FilterPanels.SpecialHandlersKeepSelectionsNonEmpty | ui/src/components/build-card/build-filters.tsx:204-240 | both handlers keep every stored selection non-empty |
| FilterPanels.SpecialsFilterOnMeansSomeSelected | ui/src/store/plans/filters.tsx:123-125 | with no empty selections stored, the specials filter is on iff some special is selected |
| FilterPanels.RemoveUndoesAdd | ui/src/components/build-card/build-filters.tsx:204-240 | deselecting a special right after selecting it restores the selection |
| FilterPanels.Apply | ui/src/components/build-card/build-filters.tsx:33 | each field the partial filter carries replaces the filter's field, the others stay |
| FilterPanels.BuildClearAll | ui/src/components/build-card/build-filters.tsx:82-88 | Clear All does not carry the specials |
| FilterPanels.BuildToggleElement | ui/src/components/build-card/build-filters.tsx:119-126 | applying the patch toggles the element and changes nothing else |
| FilterPanels.BuildToggleWeaponType | ui/src/components/build-card/build-filters.tsx:148-155 | applying the patch toggles the weapon type and changes nothing else |
| FilterPanels.BuildRemoveSpecial | ui/src/components/build-card/build-filters.tsx:204-217 | applying the patch deselects the special and changes nothing else |
| FilterPanels.BuildAddSpecial | ui/src/components/build-card/build-filters.tsx:230-240 | applying the patch selects the special and changes nothing else |
| FilterPanels.BuildClearAllKeepsSpecials | ui/src/components/build-card/build-filters.tsx:82-88 | Clear All empties all but the specials, so the filter stays on exactly when specials were selected |
| FilterPanels.FilterDraft.constructor | ui/src/components/plan-card/plan-filters.tsx:50 | the draft holds the given filter |
| FilterPanels.FilterDraft.ClearAll | ui/src/components/plan-card/plan-filters.tsx:60-67 | every part is emptied, specials included, and the filter is off |
| FilterPanels.FilterDraft.ToggleElement | ui/src/components/plan-card/plan-filters.tsx:115-123 | the in-place toggle gives the same filter as the build panel's copying handler |
| FilterPanels.FilterDraft.ToggleWeaponType | ui/src/components/plan-card/plan-filters.tsx:152-160 | the in-place toggle gives the same filter as the build panel's copying handler |
| FilterPanels.FilterDraft.RemoveSpecial | ui/src/components/plan-card/plan-filters.tsx:216-226 | the in-place deselect, which skips a type with no selection, gives the same filter as the build panel's handler |
| FilterPanels.FilterDraft.AddSpecial | ui/src/components/plan-card/plan-filters.tsx:239-246 | the in-place select gives the same filter as the build panel's handler |
| FilterPanels.Options | ui/src/components/plan-card/plan-filters.tsx:187-190 | an option is offered iff the type's plans ask for it, it resolves to a known special and it is not selected |
| FilterPanels.HiddenRowHasNoOptions | ui/src/components/plan-card/plan-filters.tsx:192-194 | a row the plans ask nothing for offers no options |
| FilterPanels.OptionsAreOrderedActive | ui/src/components/plan-card/plan-filters.tsx:187-190 | the options hold no duplicates |
| FilterPanels.SelectedOptionLeavesOptions | ui/src/components/build-card/build-filters.tsx:173-176 | selecting an offered option removes it from the options and keeps the others |
| FilterPanels.PickerPasses | ui/src/components/plan-card/ui/character-picker.tsx:34-48 | an ignored character never passes; a character without an element passes any element set |
| FilterPanels.Listed | ui/src/components/plan-card/ui/character-picker.tsx:34-48 | the picker lists exactly the dictionary's characters that pass |
| FilterPanels.ElementlessPassesOnlyInPicker | ui/src/components/plan-card/ui/character-picker.tsx:39-41 | an element filter lets an elementless character through in the picker but not in the plan and build lists |
| FilterPanels.KeyDown | ui/src/components/plan-card/ui/character-picker.tsx:60-64 | Enter with a non-empty list selects the first listed character and closes the dialog; anything else changes nothing |
| FilterPanels.EnterSelectsListedCharacter | ui/src/components/plan-card/ui/character-picker.tsx:60-64 | what Enter selects is a character the picker lists, never an ignored one |
| BuildsPage.PassingBuildListed | ui/src/routes/_protected/builds.tsx:133-145 | a build whose character is known and passes the filter is listed |
| BuildsPage.ListedBuildPasses | ui/src/routes/_protected/builds.tsx:133-145 | a listed build is one of the builds, with a known character that passes the filter |
| HomePage.PageDragEndFirstPage | ui/src/routes/_protected.index.tsx:154-169 | on the first page the home drag is the shared reorder rule |
| HomePage.PageDragEndShifted | ui/src/routes/_protected.index.tsx:162-166 | on a later page every order is the shared rule's shifted by the page's start |
| PlansQuery.PlansMap | ui/src/api/plans/plans.ts:34-37 | the map has a key exactly for each listed plan id, and each entry is a listed plan with that id |
| PlansQuery.ReorderBatch | ui/src/api/plans/plans.ts:44-53 | the loop builds the batch of the plans whose order differs from the cached one, and none once a plan is missing from the map |
| PlansQuery.BatchMeaning | ui/src/api/plans/plans.ts:46-53 | the batch exists iff every reordered plan is cached, and then holds an update exactly for each plan whose order changed, with its id and new order |
| PlansQuery.AllOk | ui/src/api/plans/plans.ts:55-57 | the batch succeeds iff every response status is 200 |
| PlansQuery.ResponseOrders | ui/src/api/plans/plans.ts:61-63 | the response map has a key exactly for each returned id, holding an order the response returned for it |
| PlansQuery.WithResponseOrder | ui/src/api/plans/plans.ts:71-76 | a plan the response names takes its returned order; any other plan is unchanged |
| PlansQuery.WithResponseOrders | ui/src/api/plans/plans.ts:71-76 | the draft loop updates each plan position by position and keeps the length |
| PlansQuery.ApplyResponse | ui/src/api/plans/plans.ts:70-78 | the draft array ends as the response-updated plans sorted by order |
| PlansQuery.ReorderedMeaning | ui/src/api/plans/plans.ts:64-79 | after success the cache holds the same plans with the response's orders, as a permutation sorted by order |
| PlansQuery.ReorderIsPending | ui/src/api/plans/plans.ts:90-97 | with no reorder mutation it is false; otherwise it is true iff the latest one is pending or failed |
| PlansAtoms.CreatePlan | ui/src/store/plans/plans.ts:15-21 | the plan is appended to the cache; an empty cache stays empty |
| PlansAtoms.UpdatePlan | ui/src/store/plans/plans.ts:23-29 | every plan with the id is replaced, the others and the length kept; an empty cache stays empty |
| PlansAtoms.DeletePlan | ui/src/store/plans/plans.ts:31-37 | the cache keeps exactly the plans with another id; an empty cache stays empty |
| PlansAtoms.DeleteUndoesCreate | ui/src/store/plans/plans.ts:15-37 | deleting a plan just created, whose id was not cached, gives back the cache |
| PlansAtoms.PlansAtom | ui/src/store/plans/plans.ts:39-46 | the loop fills the id map in list order, an empty cache giving an empty map |
| PlansAtoms.ByIdMeaning | ui/src/store/plans/plans.ts:39-46 | each listed id is a key, holding the last plan with that id |
| PlansAtoms.AfterReorder | ui/src/store/plans/plans.ts:62-71 | position i takes the sent plan only when the ids differ; the rest keep the cached plan |
| PlansAtoms.AfterReorderIds | ui/src/store/plans/plans.ts:66-70 | every position shows the sent id, but a plan that kept its place keeps its cached order even when the batch changed it |
| PlansAtoms.ComputePlansArray | ui/src/store/plans/plans.ts:86-92 | the atom's copy-and-sort gives the plans the specification function lists |
| PlansAtoms.PlansArrayDescending | ui/src/store/plans/plans.ts:86-92 | the running mutation's plans, or else the cached plans, are listed highest order first as a permutation |
| PlansStore.WithField | ui/src/store/plans.ts:167 | the intended write: the written field takes the new value; id, user and every other field stay |
| PlansStore.ProduceAsWritten | ui/src/store/plans.ts:167 | the recipe as written throws exactly when its assignment changes the draft, otherwise yields the bare value; it never yields a record |
| PlansStore.UpdateAsWrittenLosesWrite | ui/src/store/plans.ts:167 | every write that would change the plan throws immer's error, and no write yields the intended record |
| PlansStore.NewRecord | ui/src/store/plans.ts:43-71 | no record without a signed-in user; otherwise that user's record with the default progress, no substats and an empty note |
| PlansStore.KeyedMeaning | ui/src/store/plans.ts:95-97 | every fetched id is a key, holding the last fetched plan with that id |
| PlansStore.Annotated | ui/src/store/plans.ts:277-280 | each plan is paired with its own optimistic entry, in list order |
| PlansStore.PlansState.constructor | ui/src/store/plans.ts:73-77 | a new repository has no plans, no entries and the init query state |
| PlansStore.PresentedDescending | ui/src/store/plans.ts:276-283 | the presenter lists every plan once with its entry, highest order first |
| PlansStore.PlansPresentation.constructor | ui/src/store/plans.ts:274 | a new presenter lists nothing and has no subscribers |
| PlansStore.PlansPresentation.Refresh | ui/src/store/plans.ts:276-283 | the list becomes the repository's annotated plans sorted highest order first; subscribers unchanged |
| PlansStore.PlansPresentation.Callbacks | ui/src/store/plans.ts:287-288 | a key nobody subscribed to notifies nobody |
| PlansStore.PlansPresentation.Updated | ui/src/store/plans.ts:285-292 | refreshes, then calls exactly the callbacks of that plan, or of the whole collection without an id |
| PlansStore.PlansPresentation.All | ui/src/store/plans.ts:294-299 | the listed plans in order, each with its entry as stored now |
| PlansStore.PlansPresentation.GetById | ui/src/store/plans.ts:311-320 | nothing for an unknown id; otherwise the stored record with its entry when it has one |
| PlansStore.PlansPresentation.Subscribe | ui/src/store/plans.ts:301-309 | the key's set, created on first use, gains the callback; other keys and the list are unchanged |
| PlansStore.PlansPresentation.Unsubscribe | ui/src/store/plans.ts:308 | the callback leaves the key's set, and nothing else changes |
| PlansStore.PlansCommands.constructor | ui/src/store/plans.ts:80-83 | the commands act on the given repository and presenter |
| PlansStore.PlansCommands.Load | ui/src/store/plans.ts:85-108 | unforced, a loaded store is left alone; otherwise the items become the fetched plans and the state loaded, or no items and the loading error |
| PlansStore.PlansCommands.Create | ui/src/store/plans.ts:110-158 | signed in, the new record ordered after every stored plan is stored under the clock id with a loading entry; signed out, the items stay and a loading entry turns into the unknown error |
| PlansStore.PlansCommands.CreateDone | ui/src/store/plans.ts:127-130 | the temporary record and its entry give way to the created plan under its own id |
| PlansStore.PlansCommands.Update | ui/src/store/plans.ts:160-190 | the intended update: nothing for an unknown plan; otherwise the field is written and a loading entry stored unless one is, keeping an error entry's context |
| PlansStore.PlansCommands.UpdateAsWritten | ui/src/store/plans.ts:160-190 | as written: a write that changes the plan rejects with immer's error and stores nothing; a write of the held value handles the pending entry as `Update` does and stores no record |
| PlansStore.PlansCommands.UpdateDone | ui/src/store/plans.ts:180-183 | the sent record is stored again and its entry dropped |
| PlansStore.PlansCommands.Delete | ui/src/store/plans.ts:218-236 | the plan leaves the items at once and a loading entry without context is stored |
| PlansStore.PlansCommands.DeleteDone | ui/src/store/plans.ts:228-230 | the plan and its entry are gone |
| PlansStore.PlansCommands.CancelCreate | ui/src/store/plans.ts:145-149 | the temporary record and its entry are dropped |
| PlansStore.PlansCommands.RetryCreate | ui/src/store/plans.ts:150-154 | the loading entry is stored again and the items stay |
| PlansStore.UpdateKeepsPlan | ui/src/store/plans.ts:165-188 | an updated plan keeps its key and id, and the presenter still shows it |
| PlansStore.SubscribeThenUnsubscribe | ui/src/store/plans.ts:301-309 | subscribing then calling the returned function leaves no trace of the callback under that key |
| NewCharacterPlansStore.PendingCharacter.constructor | ui/src/stores/newCharacterPlans.ts:36-40 | the pending build holds its id, character and order |
| NewCharacterPlansStore.Without | ui/src/stores/newCharacterPlans.ts:71 | the list keeps every other object and loses that one |
| NewCharacterPlansStore.WithoutUndoesAppend | ui/src/stores/newCharacterPlans.ts:54-73 | removing an object just appended, and not listed before, gives back the list |
| NewCharacterPlansStore.ToStartMeaning | ui/src/stores/newCharacterPlans.ts:84-93 | signed in, a run starts exactly the listed builds not sent before, each once; signed out, none |
| NewCharacterPlansStore.NewCharacterPlans.constructor | ui/src/stores/newCharacterPlans.ts:50-53 | the store starts with no builds, nothing sent and counter 0 |
| NewCharacterPlansStore.NewCharacterPlans.AddNew | ui/src/stores/newCharacterPlans.ts:54-67 | the counter rises by one and a build with that id, ordered after the page's builds and the pending ones, is appended |
| NewCharacterPlansStore.NewCharacterPlans.PlanReady | ui/src/stores/newCharacterPlans.ts:68-73 | that object leaves the list and the sent set; the others keep their order |
| NewCharacterPlansStore.NewCharacterPlans.SignedOut | ui/src/stores/newCharacterPlans.ts:76-80 | sign-out resets the counter and the list and keeps the sent set |
| NewCharacterPlansStore.NewCharacterPlans.CreatePlans | ui/src/stores/newCharacterPlans.ts:84-129 | the builds started are those the specification function picks, and exactly they join the sent set |
| NewCharacterPlansStore.RunCreate | ui/src/stores/newCharacterPlans.ts:95-127 | the run ends as the retry function says; a creation marks the build ready, any other end leaves the store alone |
| NewCharacterPlansStore.AddThenReady | ui/src/stores/newCharacterPlans.ts:54-73 | adding a build and marking it ready leaves the list as it was, the counter one higher |
| PlanCreation.DefaultProgressCurrentBelowTarget | ui/src/api/plans/character-plans.ts:29-38 | each default current value is at most its target |
| PlanCreation.NewCharacterPlan | ui/src/api/plans/character-plans.ts:12-42 | fails with the not-authorized message iff nobody is signed in; otherwise the user's new plan with the clock id and timestamps, not complete, default progress, no substats, empty note |
| PlanCreation.NewPlanForPending | ui/src/stores/newCharacterPlans.ts:11-34 | nothing iff nobody is signed in; otherwise an id-less plan with the pending character and order and the default progress |
| PlanCreation.ApplyPatches | ui/src/api/plans/character-plans.ts:48-53 | patches only remove fields and never change a kept one |
| PlanCreation.ApplyPatchesRemovesPaths | ui/src/api/plans/character-plans.ts:48-53 | applying remove patches removes exactly the fields they name |
| PlanCreation.ServerPatchesDropNested | ui/src/api/plans/character-plans.ts:48-53 | the server patches remove exactly the four nested collections |
| PlanCreation.PostUpdate | ui/src/api/plans/character-plans.ts:67-69 | the records end sorted by order, as a permutation |
| PlanCreation.CreateOrder | ui/src/api/plans/character-plans.ts:77 | 1 for no records, else the last record's own order |
| PlanCreation.CreateOrderTiesLast | ui/src/api/plans/character-plans.ts:77 | as written, after any non-empty records the new plan takes the last record's order; after the sort no record is above it, so it ties instead of sorting after all of them |
| PlanCreation.NextOrder | ui/src/api/plans/character-plans.ts:77 | 1 for no records |
| PlanCreation.NextOrderAboveAll | ui/src/api/plans/character-plans.ts:67-77 | after the sort the intended order is above every record's |
| PlanCreation.TryCreate | ui/src/stores/newCharacterPlans.ts:95-127 | a run makes at least one and at most four requests |
| PlanCreation.TryCreateOutcome | ui/src/stores/newCharacterPlans.ts:106-124 | a run ends ready with the first creation after only retried failures, gives up after the fourth retried failure, and stops at a non-response error only where that error is not retried |
| PendingPlansMap.WithState | ui/src/store/plans/pendingPlans.ts:53-56 | the entry with that id, when present, takes the new state; the keys and every other entry stay |
| PendingPlansMap.ToSendUpTo | ui/src/store/plans/pendingPlans.ts:44-51 | with nobody signed in a pass starts nothing |
| PendingPlansMap.ToSendMeaning | ui/src/store/plans/pendingPlans.ts:44-51 | signed in, a pass starts exactly the ids of the pending entries |
| PendingPlansMap.ToSendDistinct | ui/src/store/plans/pendingPlans.ts:44-51 | the ids a pass starts are distinct |
| PendingPlansMap.MarkedSent | ui/src/store/plans/pendingPlans.ts:53-56 | marking keeps the set of keys |
| PendingPlansMap.SnapshotIdsDistinct | ui/src/store/plans/pendingPlans.ts:19-25 | the entries of a snapshot carry distinct ids |
| PendingPlansMap.MarkedUpTo | ui/src/store/plans/pendingPlans.ts:44-56 | a partial pass keeps the keys, and with nobody signed in changes nothing |
| PendingPlansMap.MarkedUpToEntries | ui/src/store/plans/pendingPlans.ts:44-56 | after a partial pass exactly the started ids are marked sent |
| PendingPlansMap.StartsDistinct | ui/src/store/plans/pendingPlans.ts:44-56 | a whole pass starts each id once |
| PendingPlansMap.MarkPending | ui/src/store/plans/pendingPlans.ts:42-56 | the loop starts the pending ids in order, each once, and marks exactly those sent |
| PendingPlansMap.UnsentMark | ui/src/store/plans/pendingPlans.ts:53-56 | marking an entry sent never raises the unsent count, and lowers it when the entry was unsent |
| PendingPlansMap.MarkChanged | ui/src/store/plans/pendingPlans.ts:53-56 | a write that changed the map lowers the unsent count, so the re-entrant subscriber terminates |
| PendingPlansMap.Notified | ui/src/store/plans/pendingPlans.ts:42-95 | the re-entrant subscriber keeps the keys and never raises the unsent count |
| PendingPlansMap.PassFrom | ui/src/store/plans/pendingPlans.ts:44-56 | the rest of a pass keeps the keys and never raises the unsent count |
| PendingPlansMap.PassSend | ui/src/store/plans/pendingPlans.ts:48-56 | at a pending entry the inner subscriber's starts come first, then this entry's, then the rest of the pass |
| PendingPlansMap.PassInvStop | ui/src/store/plans/pendingPlans.ts:44-51 | at the snapshot's end, or at a pending entry signed out, the pass is complete |
| PendingPlansMap.SendKeeps | ui/src/store/plans/pendingPlans.ts:48-56 | the subscriber's loop invariant survives one pending entry |
| PendingPlansMap.SecondPendingSentTwice | ui/src/store/plans/pendingPlans.ts:42-56 | with two pending entries a and b, the subscriber as written starts b, a, then b again |
| PendingPlansMap.ReenteredPass | ui/src/store/plans/pendingPlans.ts:53-56 | the subscriber re-entered after a is marked starts b and marks it sent |
| PendingPlansMap.SettledPass | ui/src/store/plans/pendingPlans.ts:42-56 | once both entries are sent a notification starts nothing |
| PendingPlansMap.OuterPassRest | ui/src/store/plans/pendingPlans.ts:44-56 | the outer pass still sees b pending in its snapshot and starts it again |
| PendingPlansMap.PendingPlans.constructor | ui/src/store/plans/pendingPlans.ts:19-21 | the map starts empty |
| PendingPlansMap.PendingPlans.Add | ui/src/store/plans/pendingPlans.ts:26-40 | a pending entry under the clock id, ordered after the committed plans and the entries already in the map, is set |
| PendingPlansMap.PendingPlans.SetState | ui/src/store/plans/pendingPlans.ts:53-56 | the map becomes the map with that entry's state replaced |
| PendingPlansMap.PendingPlans.Process | ui/src/store/plans/pendingPlans.ts:42-56 | the intended subscriber starts each pending id once, in order, and marks exactly those sent |
| PendingPlansMap.PendingPlans.Notify | ui/src/store/plans/pendingPlans.ts:42-95 | the subscriber as written, with every changing write re-entering it, starts and leaves what the re-entrant function says |
| PendingPlansMap.PendingPlans.MarkSent | ui/src/store/plans/pendingPlans.ts:53-56 | the write marks the entry sent and, when it changed the map, runs the subscriber again |
| PendingPlansMap.PendingPlans.Settle | ui/src/store/plans/pendingPlans.ts:57-93 | a creation deletes the entry and yields the new id; giving up after the retries marks it failed |
| PendingPlansMap.PendingPlans.RetryAction | ui/src/store/plans/pendingPlans.ts:79-84 | the retry action puts the entry back to pending |
| PendingPlansMap.RetriedEntryIsResent | ui/src/store/plans/pendingPlans.ts:70-84 | after a failure and the retry action, a signed-in pass starts that entry again |
| PendingPlansStore.Add | ui/src/store/plans/pending-plans.ts:20-29 | the list keeps its items and gains the new plan last |
| PendingPlansStore.Remove | ui/src/store/plans/pending-plans.ts:30-31 | exactly the items with another id are kept |
| PendingPlansStore.RemoveKeepsOrder | ui/src/store/plans/pending-plans.ts:30-31 | removal works item by item over a concatenation, so the kept items stay in order |
| PendingPlansStore.RemoveUndoesAdd | ui/src/store/plans/pending-plans.ts:20-31 | removing a plan just added under a fresh id gives back the list |
| PlanCardArtifactSets.SetsDraft.constructor | ui/src/components/plan-card/ui/artifact-sets.tsx:286 | the draft holds the given sets |
| PlanCardArtifactSets.SetsDraft.RemoveSet | ui/src/components/plan-card/ui/artifact-sets.tsx:287 | every occurrence of the set is removed from the draft, the rest kept in order |
| PlanCardArtifactSets.SetsDraft.PushSet | ui/src/components/plan-card/ui/artifact-sets.tsx:295 | the set is appended to the draft |
| PlanCardArtifactSets.DeleteSet | ui/src/components/plan-card/ui/artifact-sets.tsx:281-290 | a one-set plan is deleted whole, a two-set plan loses that set, any other plan is left alone |
| PlanCardArtifactSets.AddSet | ui/src/components/plan-card/ui/artifact-sets.tsx:292-298 | only a one-set plan is split, by pushing the chosen set |
| PlanCardArtifactSets.RunOnDraft | ui/src/components/plan-card/ui/artifact-sets.tsx:281-298 | the callback removes or pushes the set on the draft, and any other action leaves it |
| PlanCardArtifactSets.SplitChoices | ui/src/components/plan-card/ui/artifact-sets.tsx:329-332 | the split picker lists exactly the known sets the plan does not have |
| PlanCardArtifactSets.PiecesLabel | ui/src/components/plan-card/ui/artifact-sets.tsx:408 | a set is labelled two pieces iff its plan holds two sets |
| PlanCardArtifactSets.ToggleSetFilter | ui/src/components/plan-card/ui/artifact-sets.tsx:366-371 | the set is in the filter afterwards iff it was not before; other sets keep their membership |
| PlanCardArtifactSets.ToggleSetFilterAsWritten | ui/src/components/plan-card/ui/artifact-sets.tsx:366-371 | as written, `produce` never gives a finished draft for the icon's recipe |
| PlanCardArtifactSets.SetIconClickThrows | ui/src/components/plan-card/ui/artifact-sets.tsx:366-371 | every click throws immer's error before `setValue`, while the intended toggle would change the filter |
| PlanCardArtifactSets.CountAfterAdds | ui/src/components/plan-card/ui/artifact-sets.tsx:96 | presses of the add button never lower the number of set plans |
| PlanCardArtifactSets.AddsStopAtMax | ui/src/components/plan-card/ui/artifact-sets.tsx:96 | from at most ten set plans, each press adds one until there are ten and never more; the button is gone exactly when ten are reached |
| PlanCardArtifactSets.SoleSetPlanNotDraggable | ui/src/components/plan-card/ui/artifact-sets.tsx:161-165 | the only set plan of a card can never be dragged; on an enabled, unblocked row any plan can be dragged exactly when there are others |
| PlanCardArtifactSets.SplitThenDelete | ui/src/components/plan-card/ui/artifact-sets.tsx:281-332 | splitting a one-set plan gives two different sets labelled two pieces, and deleting either gives back a one-set plan of the other |
| PlanCardArtifactSets.NoEmptySetPlan | ui/src/components/plan-card/ui/artifact-sets.tsx:285-288 | deleting one of two different sets leaves a one-set plan, never an empty one |
| TeamMembers.Ignored | ui/src/components/plan-card/ui/teams.tsx:114-117 | the picker ignores exactly the plan's own character and the current members |
| TeamMembers.TeamDraft.constructor | ui/src/components/plan-card/ui/teams.tsx:123 | the draft holds the given members |
| TeamMembers.TeamDraft.PushMember | ui/src/components/plan-card/ui/teams.tsx:124 | the member is appended |
| TeamMembers.TeamDraft.RemoveMember | ui/src/components/plan-card/ui/teams.tsx:133 | every occurrence of the member is removed, the rest kept in order |
| TeamMembers.PlanAddMember | ui/src/components/plan-card/ui/teams.tsx:119-126 | nothing iff the character is ignored; otherwise it is pushed |
| TeamMembers.PlanDeleteMember | ui/src/components/plan-card/ui/teams.tsx:128-136 | the team is deleted iff it has one member; otherwise the member is removed |
| TeamMembers.RunOnDraft | ui/src/components/plan-card/ui/teams.tsx:119-136 | the callback pushes or removes the member on the draft, and any other action leaves it |
| TeamMembers.PlanAddKeepsTeamGood | ui/src/components/plan-card/ui/teams.tsx:119-154 | adding keeps members distinct and apart from the plan's character, and through the picker at most three |
| TeamMembers.PlanAddThenDelete | ui/src/components/plan-card/ui/teams.tsx:119-136 | adding a member and deleting it gives back the team |
| TeamMembers.BuildAddMember | ui/src/components/build-card/ui/teams.tsx:129-140 | nothing without a team, while a write is pending, or for a current member; otherwise the members with the character appended |
| TeamMembers.BuildDeleteMember | ui/src/components/build-card/ui/teams.tsx:142-156 | nothing without a team or while a write is pending; the team's deletion for a sole member; otherwise the members without the character |
| TeamMembers.CardsAgree | ui/src/components/build-card/ui/teams.tsx:129-156 | with nothing pending, the build card sends the list the plan card's draft ends with |
| TeamMembers.BuildAddThenDelete | ui/src/components/build-card/ui/teams.tsx:129-156 | adding then deleting a member on the build card sends back the original members |
| MainStats.GetTalentBounds | ui/src/components/plan-card/ui/main-stats.tsx:13-27 | every constellation gets 1 to 13 for both talents |
| MainStats.SkillRange | ui/src/components/plan-card/ui/main-stats.tsx:104-113 | the skill input runs from the current bounds' minimum to the target bounds' maximum, which is 1 to 13 |
| MainStats.BurstRange | ui/src/components/plan-card/ui/main-stats.tsx:114-123 | the burst input runs from the current bounds' minimum to the target bounds' maximum, which is 1 to 13 |
| MainStats.Clamped | ui/src/components/plan-card/ui/main-stats.tsx:39-63 | targets end at most the target maximum, an in-range target off the simple maximum stays, and a current level changes iff it is out of bounds |
| MainStats.TalentDraft.constructor | ui/src/components/plan-card/ui/main-stats.tsx:31 | the draft holds the given talent levels |
| MainStats.ClampEffect | ui/src/components/plan-card/ui/main-stats.tsx:39-63 | the effect's assignments leave the levels the clamping function gives |
| MainStats.ClampedInBounds | ui/src/components/plan-card/ui/main-stats.tsx:39-63 | with the bounds in use both current levels end in 1..13, targets at 13 or below, a target below 1 stays, and a second run changes nothing |
| MainStats.BurstLoweredToCurrentMax | ui/src/components/plan-card/ui/main-stats.tsx:54-55 | the burst current is lowered to the current bounds' maximum, which only differs from the target's under other bounds than the ones in use |
| ShortNumberInput.SetNewValue | ui/src/components/short-number-input.tsx:15-20 | a value is reported iff it lies in [min, max], and then unchanged |
| ShortNumberInput.Inc | ui/src/components/short-number-input.tsx:24-26 | the value plus one is reported iff it is in range |
| ShortNumberInput.Dec | ui/src/components/short-number-input.tsx:21-23 | the value minus one is reported iff it is in range |
| ShortNumberInput.IncThenDec | ui/src/components/short-number-input.tsx:21-26 | stepping up then down from inside the range comes back to the value |
| ShortNumberInput.SetNewNumber | ui/src/components/short-number-input.tsx:16 | a number is reported iff it is finite and in range; infinities fail the comparison |
| ShortNumberInput.OnChange | ui/src/components/short-number-input.tsx:28-34 | a text is reported iff Number reads it as a finite number in range, and then that number |
| ShortNumberInput.ToNumberPlain | ui/src/components/short-number-input.tsx:29 | text without surrounding space, Infinity or a radix prefix is read as a signed decimal literal |
| ShortNumberInput.ToNumberDigits | ui/src/components/short-number-input.tsx:29 | typed digits are read as their decimal value |
| ShortNumberInput.ToNumberHex | ui/src/components/short-number-input.tsx:29 | a 0x literal is read in base 16 |
| ShortNumberInput.ToNumberMinus | ui/src/components/short-number-input.tsx:29 | a minus sign negates the literal after it |
| ShortNumberInput.DecimalFraction | ui/src/components/short-number-input.tsx:29 | digits after a decimal point add the fraction they spell |
| ShortNumberInput.DecimalExponent | ui/src/components/short-number-input.tsx:29 | an exponent scales the mantissa by the power of ten it names |
| ShortNumberInput.InfinityIgnored | ui/src/components/short-number-input.tsx:28-34 | Infinity of either sign is never reported |
| ShortNumberInput.EmptyTextIsZero | ui/src/components/short-number-input.tsx:28-34 | clearing the field reports 0 exactly when 0 is in range |
| ShortNumberInput.OnKeyDown | ui/src/components/short-number-input.tsx:35-44 | only ArrowUp, k, ArrowDown and j report, an in-range value one step up for the first two and one step down for the others |
| ArtifactSpecials.AsTypePlans | ui/src/components/build-card/ui/artifact-stats.tsx:95-103 | one artifact type plan per record, in order |
| ArtifactSpecials.GroupedMeaning | ui/src/components/plan-card/ui/artifact-types.tsx:38-63 | a type is a group key iff a record has that type, and its group is exactly that type's records in their order |
| ArtifactSpecials.GroupedKeys | ui/src/components/plan-card/ui/artifact-types.tsx:40-46 | a type is a group key iff one of the records seen has it |
| ArtifactSpecials.GroupedGroups | ui/src/components/plan-card/ui/artifact-types.tsx:40-46 | each group holds the records of its type in their order |
| ArtifactSpecials.GroupStepEntry | ui/src/components/plan-card/ui/artifact-types.tsx:42-46 | one step appends the record to its own type's group, creating it if missing, and leaves the other groups alone |
| ArtifactSpecials.GroupRecords | ui/src/components/plan-card/ui/artifact-types.tsx:38-63 | the one pass yields the grouped records and the specials-by-type map the store computes for the same plans |
| ArtifactSpecials.Options | ui/src/components/plan-card/ui/artifact-types.tsx:101-107 | an option is a special of the type not selected for it, and every such special is an option |
| ArtifactSpecials.SelectorShownIffUnselected | ui/src/components/plan-card/ui/artifact-types.tsx:130 | the selector is shown exactly when some special of the type is not yet selected |
| ArtifactSpecials.ChosenOptionJoinsItsType | ui/src/components/plan-card/ui/artifact-types.tsx:76-81 | a chosen option was not selected for the row's type, and after the create it is |
| ArtifactSpecials.GroupSpecials | ui/src/components/build-card/ui/artifact-types.tsx:76-84 | the build card's reduce gives the store's specials-by-type map for the same plans |
| ArtifactSpecials.AddStatRequest | ui/src/components/build-card/ui/artifact-stats.tsx:105-107 | adding sends exactly the special and the type |
| ArtifactSpecials.FindMatch | ui/src/components/build-card/ui/artifact-stats.tsx:110-112 | the index found is the first record with that type and special, and none is found iff no record has both |
| ArtifactSpecials.DeleteStatRequest | ui/src/components/build-card/ui/artifact-stats.tsx:109-117 | nothing is sent iff no record matches or the first match has an empty id; otherwise that record's deletion |
| ArtifactSpecials.SelectedSpecialCanBeDeleted | ui/src/components/build-card/ui/artifact-types.tsx:90-98 | a selected special with a non-empty id is deleted by the id of a record asking for it |
| ArtifactSpecials.ResolvedOptions | ui/src/components/build-card/ui/artifact-stats.tsx:124-130 | an option is a special of the type that resolves and is not selected, and every such special is an option |
| ArtifactSpecials.SubstatOptions | ui/src/components/plan-card/ui/artifact-substats.tsx:29-32 | an option is a substat special not among the plan's substats, and every such special is an option |
| ArtifactSpecials.SubstatsDraft.constructor | ui/src/components/plan-card/ui/artifact-substats.tsx:24 | the draft holds the given substats |
| ArtifactSpecials.SubstatsDraft.AddSubstat | ui/src/components/plan-card/ui/artifact-substats.tsx:34-39 | the id is appended to the substats |
| ArtifactSpecials.SubstatsDraft.DeleteSubstat | ui/src/components/plan-card/ui/artifact-substats.tsx:41-46 | every occurrence of the id is removed, the rest kept in order |
| ArtifactSpecials.ResolvedSubstats | ui/src/components/build-card/ui/artifact-substats.tsx:17-24 | the selected substats are exactly those that resolve to a known special |
| ArtifactSpecials.BuildSubstatOptions | ui/src/components/build-card/ui/artifact-substats.tsx:25-30 | no option is among the resolved selected ids |
| ArtifactSpecials.AddedSubstat | ui/src/components/build-card/ui/artifact-substats.tsx:32-34 | the substats with the id appended |
| ArtifactSpecials.DeletedSubstat | ui/src/components/build-card/ui/artifact-substats.tsx:36-38 | the id no longer occurs, exactly its occurrences are gone, and every other id stays |
| ArtifactSpecials.SubstatOptionsAgree | ui/src/components/build-card/ui/artifact-substats.tsx:25-38 | both cards offer the same options; adding an option and deleting it restores the substats and the option |
| ArtifactTypePlans.Flatten | ui/src/store/plans/artifactTypePlans.ts:7-9 | the flattened list is as long as all plans' artifact type plans together |
| ArtifactTypePlans.FlattenMembers | ui/src/store/plans/artifactTypePlans.ts:7-9 | an artifact type plan is listed iff some plan has it |
| ArtifactTypePlans.AddSpecialIsGetOrSetDefault | ui/src/store/plans/artifactTypePlans.ts:19-21 | the step is the get-or-set-default lookup followed by adding the special to the set it returns |
| ArtifactTypePlans.AddSpecialSpec | ui/src/store/plans/artifactTypePlans.ts:19-21 | the step adds the special to its type's set, creating the set if missing, and touches no other type |
| ArtifactTypePlans.SpecialsByTypeMeaning | ui/src/store/plans/artifactTypePlans.ts:15-24 | the map holds a key iff some artifact type plan has that type, and its set exactly the specials asked for with it |
| ArtifactTypePlans.SpecialsHas | ui/src/store/plans/artifactTypePlans.ts:18-22 | a type's set holds a special iff an artifact type plan asks for that pair |
| ArtifactTypePlans.SpecialsUpToPrefix | ui/src/store/plans/artifactTypePlans.ts:18-22 | the map after n plans depends only on the first n |
| ArtifactTypePlans.AppendedSpecialJoins | ui/src/store/plans/artifactTypePlans.ts:18-22 | an appended artifact type plan's special joins its type's set |
| ArtifactTypePlans.NoPlansNoSpecials | ui/src/store/plans/artifactTypePlans.ts:15-24 | no plans give no artifact type plans and an empty map |
| ArtifactTypePlans.CollectSpecialsByType | ui/src/store/plans/artifactTypePlans.ts:15-24 | the loop computes the specials-by-type map |
| ArtifactTypePlans.ActiveStepIsAddSpecial | ui/src/components/build-card/ui/artifact-stats.tsx:95-103 | the explicit get-then-set step builds the same map as the get-or-set-default step |
| CollectionAvatar.Split | ui/src/components/collection-avatar.tsx:9 | one part more than there are spaces, no part holds a space, and joining the parts gives the name back |
| CollectionAvatar.Initials | ui/src/components/collection-avatar.tsx:9-11 | at most one character per part when upper-casing gives at most one |
| CollectionAvatar.ShortName | ui/src/components/collection-avatar.tsx:6-13 | a missing name gives "??", an empty one "", and otherwise at most one character per space-separated part |
| CollectionAvatar.ShortNameOfWords | ui/src/components/collection-avatar.tsx:6-13 | one word gives its upper-cased first letter, two words their two initials |
| CollectionAvatar.SplitWithout | ui/src/components/collection-avatar.tsx:9 | a name without a space is one part |
| CollectionAvatar.SplitCons | ui/src/components/collection-avatar.tsx:9 | splitting stops at the first space |
| CollectionAvatar.SplitJoin | ui/src/components/collection-avatar.tsx:9-11 | splitting words joined by spaces gives the words back |
| CollectionAvatar.ShortNameOfJoin | ui/src/components/collection-avatar.tsx:6-13 | the short name of space-joined words is each word's upper-cased initial in turn |
| RandomItems.StepKeepsInv | ui/src/routes/_auth/index.tsx:47-52 | one iteration keeps every picked position in range, picked once, passing, and its item pushed |
| RandomItems.RunKeepsInv | ui/src/routes/_auth/index.tsx:46-53 | the loop keeps the invariant however many draws |
| RandomItems.GetRandomItems | ui/src/routes/_auth/index.tsx:38-56 | the loop returns the state the draws lead to, and whether the condition turned false |
| RandomItems.RandomItemsMeaning | ui/src/routes/_auth/index.tsx:43-55 | at most count items and at most the array's length, positions distinct, every item the one at its position and passing |
| RandomItems.PassingPositions | ui/src/routes/_auth/index.tsx:49 | exactly the positions whose items pass |
| RandomItems.DistinctWithin | ui/src/routes/_auth/index.tsx:44 | a duplicate-free sequence drawn from a set is no longer than the set |
| RandomItems.Below | ui/src/routes/_auth/index.tsx:47 | exactly the n positions below n |
| RandomItems.DistinctBelow | ui/src/routes/_auth/index.tsx:46 | a duplicate-free sequence of positions below n has at most n entries |
| RandomItems.StuckWhenTooFewPass | ui/src/routes/_auth/index.tsx:46-53 | with fewer passing items than asked for and than the array holds, no sequence of draws ends the loop |
| RandomItems.HomePageWeaponsStuck | ui/src/routes/_auth/index.tsx:74-80 | two weapons of which one passes, two asked for: the loop never ends |
| RandomItems.PickRandomItems | ui/src/routes/_auth/index.tsx:38-56 | the intended loop ends with at most count distinct passing items, and with fewer only when every passing position is picked |
| BuildWeapons.IgnoredWeapons | ui/src/components/build-card/ui/weapons.tsx:91 | a weapon is ignored iff it is already in the build |
| BuildWeapons.NewWeaponPlan | ui/src/components/build-card/ui/weapons.tsx:100-109 | level 0 to 90, refinement 1 to 5, this build and weapon, order one past the listed weapons |
| BuildWeapons.NewWeaponGoesLast | ui/src/components/build-card/ui/weapons.tsx:91-109 | with orders 1..n a picked weapon is new to the build and ordered after all listed ones |
| BuildWeapons.WeaponsDragEnd | ui/src/components/build-card/ui/weapons.tsx:144-168 | the drag applies the shared reorder rule to the list in flight, else the stored one |
| BuildWeapons.BatchOf | ui/src/components/build-card/ui/weapons.tsx:126-131 | one order update per item, in list order |
| BuildWeapons.ReorderBatch | ui/src/components/build-card/ui/weapons.tsx:125-133 | the loop builds one order update per item |
| BuildWeapons.DragSendsEveryWeapon | ui/src/components/build-card/ui/weapons.tsx:146-168 | a drag sends an update for every weapon, orders 1..n by position, the dragged one at its drop position, the same ids |
| BuildWeapons.IdsFollowContents | ui/src/components/build-card/ui/weapons.tsx:163-168 | lists with the same contents list the same ids |

## Left out

**Foreign code and I/O (Go).**
- PocketBase internals are not modelled: collection CRUD, query execution, access rules and file storage. The `Store` value stands in for them, with failures chosen by the `Faults` oracle.
- PocketBase's relation validation on `app.Save` is not modelled. The store checks required and unique fields only, so a record with a dangling relation id saves in the model where PocketBase rejects it.
- SeedModels.SeedSucceeds: holds for this store only; with PocketBase's relation check, a dump with a dangling relation id would fail.
- The random suffix PocketBase adds to uploaded file names (`filesystem.NewFileFromBytes`, `NewFileFromPath`) is not modelled. A stored file keeps the name it is given.
- SHA-256 is a function parameter, not an implementation. File reads and writes, temp files and `io.Copy` are modelled as a `Disk` map with failures.
- The HTTP handlers of `main.go` are not modelled: `/api/dump/*`, `/api/dictionaryVersion`, the multipart upload and superuser checks. Nor are the cobra command wiring, the logger set-up or the static file server.
- The `seedCollection` and `upsertRecordByName` helpers of the older `seed/` variant are not among the sources.
  - `LegacySeed.LegacySeedCollection` assumes they behave like `internals/seed`'s `seedCollection`.
  - `LegacySeed.UpsertByName` is a find-by-name, else a new record.
  - `models.SPECIALS_COLLECTION_NAME`, which that variant references, is taken to be `"specials"`.
- RecordStore.GetStringSlice: PocketBase's `GetStringSlice` is assumed to return the field's distinct non-empty strings, in order.
- SeedModels.ScanValue: a JSON column stored as bytes that are not valid UTF-8 fails to scan here, where Go's `json.Unmarshal` reads the bad bytes as U+FFFD. The model's own `Dump` writes valid UTF-8 only, so its dumps always scan.
- SeedUtils.Lower: ASCII-only. Go's `strings.ToLower` also lower-cases non-ASCII letters, so a slug of a non-ASCII file name may differ.
- The nine seed and dump steps of `internals/seed/dictionaries.go` are written as a loop over the kinds in seed order, not as nine straight-line calls. The calls and their order are the same.
- WeaponPlansTags.Migrate: the migration runner's transaction is not modelled. A failure part-way leaves the earlier steps applied here, where PocketBase rolls the whole migration back.
- Declarative migrations, the SQL views and the older `models/app_setting.go` hold no logic and are not modelled.

**Foreign code, timing and effects (client).**
- The network and the TanStack Query cache are abstract outcomes: pbClient calls, query invalidation, toasts, dialogs and `AsyncDebounce` timers. A debounced task is a method that runs its effect.
- `Math.random` is an oracle `draw`. `Date.now` and fuzzy search are parameters. Immer patches are an opaque appendable sequence.
- `authRefresh()` is not modelled, in `newCharacterPlan` (ui/src/stores/newCharacterPlans.ts:14-16) and in the pending-plan subscriber (ui/src/store/plans/pendingPlans.ts:100-102). It only refreshes the session token.
- `reloadDictionaries()` in ui/src/store/plans/renderingItems.tsx:49,69 is not modelled. The model skips a plan whose character is unknown and leaves out the reload it triggers.
- `removeByPredMut` (from `lib/array-remove-mut`) is not among the sources. It is taken to remove every element the predicate matches and keep the rest in order (`Lists.RemoveAll`).
- `createRecordsMap` is not among the sources. It is taken to map each id to the last item with that id.
- JSX rendering, dnd-kit sensors, animations, theme stores, devtools, Dexie/IndexedDB, web workers and service-worker caches are not modelled.
- The old `useCollectionMutation` hook in ui/src/api/plans/utils.ts:138-395 is not modelled. Only its reducer (ui/src/api/plans/utils.ts:57-136) is, as `PlansMutationQueue`. The rest of that file uses undeclared names and does not compile.
- The hook parts of ui/src/api/plans/utils/use-collection-mutation.ts are not modelled:
  - the debounce effect (276-284);
  - the `mutateAsync` effect (286-304);
  - the `onSuccess` write-back (365-407) and `onError` (408-419);
  - `useBlocker` (491-498);
  - `usePlanCollectionAccessor` (512-533).
- Only the reducer, the batch state machine and the shadow records are modelled. For the inner-collection variant, its mutation's network calls and the effect that starts them are likewise left out.
- PlansStore.PlansCommands: the error paths of `update` and `delete` (ui/src/store/plans.ts:191-215, 237-261), their cancel and retry, are not modelled. Only `create`'s cancel and retry are.
- PlansStore.PlansCommands.UpdateAsWritten: a write of the value already held makes the source store the bare value in place of the record and send it on. The items here hold records only, so they are left as they were, and that send is not modelled.
- PlansStore.UpdateKeepsPlan: proved of the intended write, `WithField`. As written, `update` never stores that record (see Findings): a write that changes the plan throws, and one that changes nothing stores the bare value.
- The reorder `mutationFn` of ui/src/store/plans/plans.ts:48-61 builds the same batch, by the same loop, as `PlansQuery.ReorderBatch`. It is covered by that member and not modelled twice.

**Representation.**
- PlansAtoms.ComputePlansArray: sorts a copy. The source sorts the mutation's `variables` array in place, so the mutation's state is reordered too; that aliasing is not modelled.
- Elsewhere a source's in-place `sort` is likewise modelled as a sort of the sequence's value (`Lists.SortBy`). `ArraySort.SortInPlace` shows the in-place sort equals it.
- CollectionAvatar.ShortName: a Dafny `char` is a Unicode scalar value, where JavaScript's `p[0]` is a UTF-16 code unit. A word starting with a character outside the Basic Multilingual Plane gives its whole first character here, and half a surrogate pair in the source.
- PlansStore.ProduceAsWritten: the substats list is taken to be passed as a new array. `Object.is` compares arrays by reference, so passing the very array held would not throw.
- PlanCreation.DefaultProgress: the ten numeric progress fields of a plan (`levelCurrent`, `talentAtkCurrent` and the rest) are kept in one `progress: map<string, int>` keyed by field name, and a write of one of them is `Progress(name, value)`. Each is still compared as a number.
- Startup.Note: a note file that is not valid UTF-8 is stored by Go byte for byte, and no text of Unicode scalar values stands for it. Such a file is read here one character per byte.
- Startup.UpdateSeed: the dump record's notes are exact only for a note file in UTF-8, as the line on `Startup.Note` says.
- Immer's `produce` is modelled only by its rule on a recipe's return value (`Immer.Produce`). Its structural sharing and freezing are not.
- ShortNumberInput.ToNumber: `Number(text)` is read over exact reals. Rounding to double precision and the overflow of very long literals to `Infinity` are not modelled.
- RetryPromise.RetryPromise: the configured `retries` is taken to be a whole number. With a fractional one the source's counter never equals it. It then tries one time more than the integer part and rejects with its "unreachable" error instead of the last one. That case is not modelled.
- RandomItems.GetRandomItems: the source loop can run forever (see Findings), so the model runs it for a bounded number of draws, `fuel`, and says whether it finished within them.
- MainStats.ClampEffect: models one run of the clamping effect. React re-runs it after its own writes, and `ClampedInBounds` proves a second run changes nothing.
- MainStats.BurstLoweredToCurrentMax: a burst current level above its bounds is lowered to the current bounds' maximum, where the skill uses the same bounds for both. With the only bounds the source has, both are 13, so nothing observable differs.
- FilterPanels: the plan-filter field `specialsByArtifactTypePlans` (ui/src/components/plan-card/plan-filters.tsx) is named `artifactTypeSpecials` in the model. It is the same map of specials by artifact type as the build panel's.
- builds.tsx:326-335 renders the build filter panel without `hasActiveFilters` or `artifactTypeSpecials`. So the "Clear All" button is never shown there, and the specials rows would read from a missing map. The page's use of the panel is not modelled; the panel's own handlers are (`FilterPanels`).

## Findings

| source | as written | input that shows it | evidently intended | confidence | as-written member | corrected member |
|---|---|---|---|---|---|---|
| ui/src/api/plans/utils/use-plans-inner-collection-mutation.ts:363 | the shadow-records memo builds the list and then ends with a bare `return`, so the hook always falls back to the stored records | a create scheduled on an empty list: the hook returns `[]` | return the built list: the stored records minus the deleted ones, updates applied, and the created records at the end | not executed | InnerCollectionMutation.CreateNotShown | InnerCollectionMutation.IntendedShadowShape |
| ui/src/api/dictionaries/hooks.tsx:193-197 | the domains-of-blessing hooks are built for the `artifactTypes` collection | a domain `d1` holding set `s1`, and no artifact type `d1`: the index by set returns `d1`, but looking `d1` up finds nothing | build them for `domainsOfBlessing` | not executed | DictionaryHooks.DomainHookMissesIndexedDomain | DictionaryHooks.DomainHookFindsIndexedDomain |
| ui/src/store/plans/renderingItems.tsx:107-111 | a pending item's `visible` tests its index in the already filtered list | one item per page, page 2 of [committed, committed, pending]: the pending item is marked visible although it is third | test the item's index in the unfiltered list | not executed | RenderingItems.PendingShownOffPage | RenderingItems.PaginateShowsPage |
| ui/src/routes/_auth/index.tsx:46-53 | the loop draws random positions until enough items pass or every position is picked, and a failing item is never marked picked | weapons [1, 2] of which only 1 passes, two asked for: no sequence of draws ends the loop | also stop once every position has been tried | not executed | RandomItems.StuckWhenTooFewPass | RandomItems.PickRandomItems |
| ui/src/api/plans/character-plans.ts:77 | a new plan takes the order of the last record | any non-empty records, such as one record with order 5: the new plan gets order 5 too and ties with it | one past the last record's order | not executed | PlanCreation.CreateOrderTiesLast | PlanCreation.NextOrderAboveAll |
| ui/src/store/plans/pendingPlans.ts:42-56 | marking an entry sent calls `store.set`, which runs the subscriber again at once, while the outer pass goes on over its stale snapshot | two pending entries `a` and `b`, signed in: the creates start for `b`, `a`, `b`, so `b` is created twice | one pass over the current entries, each pending entry started once | not executed | PendingPlansMap.SecondPendingSentTwice | PendingPlansMap.PendingPlans.Process |
| ui/src/store/plans.ts:167 | the recipe `(s) => (s[field] = value)` returns the value it assigns, and immer throws when a recipe both changes its draft and returns a value; the throw comes before the `try` | `update(id, 'order', 2)` on a plan with order 1: the call rejects and nothing is stored; with order 1 the plan is replaced by the number 1 | a recipe with a block body, `(s) => { s[field] = value; }`, so that the plan with the field written is stored | not executed | PlansStore.UpdateAsWrittenLosesWrite | PlansStore.PlansCommands.Update |
| ui/src/components/plan-card/ui/artifact-sets.tsx:366-371 | the recipe handed to `setFilters` returns the value of `delete` or `add` after that call changed the draft, so `produce` (ui/src/store/plans/filters.tsx:72) throws and `setValue` is never reached | a filter without set `s1`, click on the icon of `s1`: `add` changes the draft and the recipe returns the set, so immer throws and the filter stays without `s1` | toggle the set with a recipe that returns nothing | not executed | PlanCardArtifactSets.SetIconClickThrows | PlanCardArtifactSets.ToggleSetFilter |
