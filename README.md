# Setlist tool: verified model of its storage, import/export and statistics

This project models the sequential core of a setlist tool, an app for members, songs, events and the setlists performed at events. It proves properties of that model in Dafny.

- **Storage** (`storage.dfy`, module `Storage`). This is the single storage document and the twelve repository operations on it: add, update and delete for each of members, songs, events and setlists.
  - The durable data file is a `DataFile` object whose content is missing, unparsable or a JSON document.
  - Each operation loads a fresh `StorageData` working object, edits one of its four `seq` fields, saves the whole object and returns it.
  - The pure `map`/`filter` edits behind update and delete live in `collections.dfy` (module `Collections`).
- **Seed initialisation** (`storage_init.dfy`, module `StorageInit`). One save writes the seed collections over the file.
- **In-process cache** (`memory_store.dfy`, module `MemoryStoreModel`). This is the `MemoryStore` state machine over `data` and `isInitialized`, plus its lazily created singleton.
- **Backup format** (`backup.dfy`, module `Backup`)
  - **Export** (`export_route.dfy`, module `ExportRoute`) wraps the current document in a version "1.0" envelope.
  - **Import** (`import_route.dfy`, module `ImportRoute`) validates an envelope, then adds every record, one repository call at a time.
- **Dashboard statistics** (`dashboard.dfy`, module `Dashboard`, on top of `setlist_metrics.dfy` and `stable_sort.dfy`)
  - Per-song performance counts and adoption rates, ranked by count.
  - Per-member participation, counted by nested loops and ranked by the whole-number part of the one-decimal rate.
  - The "50%+ Adoption" figure.
- **Setlist prediction** (`prediction.dfy`, module `Prediction`). For a chosen event, songs with at least 60% of their default lineup attending are scored by `0.7·availability + 0.3·adoption`, sorted by score and cut to the top four.

Conventions used throughout:

- **Rates are exact.** They are Dafny `real`s or integer cross-multiplications, not IEEE doubles.
- **`toFixed(1)`** is rounding half up to tenths of a percent: `RoundedTenths(c, t) = (2000c + t) / (2t)`. `parseInt` of that string is `tenths / 10`.
- **Sorting.** JavaScript's `Array.prototype.sort` is stable. It is modelled by one stable insertion sort (`StableSort.Sort`) on a real-valued key. Stability is stated as: for every key value, the subsequence of elements with that key is unchanged.
- **Save failures.** Whether a save succeeds is an input: `writeOk` for one repository call. For the import, it is an oracle `saveOk(attempt)` over the attempts numbered from 0, in import order across the four collections.

Three facts about the code shape the model:

- **No cache fallback.** `saveData` rethrows a write error (src/lib/storage.ts:51-53), and storage.ts has no cache fallback. So a repository operation whose write fails fails itself. `MemoryStore` is modelled on its own, as the code defines it; no storage function uses it.
- **Initialisation overwrites.** `initializeStorage` overwrites the whole document (src/lib/storageInit.ts:12-17), so a second call leaves the same state as one.
- **Available members are a filter.** They are a `filter` of `defaultSelectMembers` (src/components/tabs/PredictionTab.tsx:19-21), which keeps their order and any duplicates.

## Model

| member | source | states |
|---|---|---|
| Collections.CountId | src/lib/storage.ts:63-148 | the number of records carrying an id; its own ensures is only the bound by the length, and its meaning is fixed by CountZero, CountAppend and CountConcat |
| Collections.ReplaceById | src/lib/storage.ts:72 | update keeps the length; every record whose id matches becomes the new record, not only the first, and every other record is unchanged |
| Collections.RemoveById | src/lib/storage.ts:79 | delete leaves no record with the id, shrinks the length by exactly the number of matches, and keeps the survivors in their relative order (a subsequence) |
| Collections.CountZero | src/lib/storage.ts:72 | an id has count zero exactly when no record carries it |
| Collections.CountAppend | src/lib/storage.ts:65 | appending a record adds one to the count of its own id and nothing to any other id |
| Collections.CountConcat | src/app/api/import/route.ts:47-54 | id counts add up over concatenated collections |
| Collections.AppendDuplicatesId | src/lib/storage.ts:65 | add makes no duplicate check: adding a record whose id is present leaves at least two records with that id |
| Collections.ReplaceAbsent | src/lib/storage.ts:72 | update with an id that matches nothing leaves the collection equal to the old one |
| Collections.ReplaceResult | src/lib/storage.ts:94 | update keeps every record's id, puts the new record at every match, and is idempotent |
| Collections.RemoveAbsent | src/lib/storage.ts:79 | delete of an absent id is a no-op |
| Collections.RemoveKeepsOthers | src/lib/storage.ts:101 | delete leaves the count of every other id unchanged |
| Collections.RemoveIdempotent | src/lib/storage.ts:123 | deleting the same id twice is the same as deleting it once |
| Storage.DataFile.constructor | src/lib/storage.ts:15-21 | the data file starts with the given content |
| Storage.DataFile.Load | src/lib/storage.ts:24-43 | a parsed document is returned as stored; a missing or unparsable file yields four empty collections |
| Storage.StorageData.constructor | src/lib/storage.ts:7-12 | the working object holds exactly the given four collections |
| Storage.LoadData | src/lib/storage.ts:24-43 | loadData gives a fresh working object equal to the file's document, or the empty document |
| Storage.SaveData | src/lib/storage.ts:46-55 | a successful write stores exactly the saved object; a failed write is rethrown and leaves the file as it was |
| Storage.GetAllData | src/lib/storage.ts:58-60 | getAllData is loadData |
| Storage.AddMember | src/lib/storage.ts:63-68 | on success the stored and returned document is the old one with the member appended to members, all else identical; on failure the file is unchanged |
| Storage.UpdateMember | src/lib/storage.ts:70-75 | on success members becomes ReplaceById of the old members, the other three collections unchanged, and the returned object is what was saved; on failure the file is unchanged |
| Storage.DeleteMember | src/lib/storage.ts:77-82 | on success members becomes RemoveById of the old members, the other three unchanged; on failure the file is unchanged |
| Storage.AddSong | src/lib/storage.ts:85-90 | on success songs gains the song at the end, the other collections unchanged; on failure the file is unchanged |
| Storage.UpdateSong | src/lib/storage.ts:92-97 | on success songs becomes ReplaceById of the old songs, the rest unchanged; on failure the file is unchanged |
| Storage.DeleteSong | src/lib/storage.ts:99-104 | on success songs becomes RemoveById of the old songs, the rest unchanged; on failure the file is unchanged |
| Storage.AddEvent | src/lib/storage.ts:107-112 | on success events gains the event at the end, the rest unchanged; on failure the file is unchanged |
| Storage.UpdateEvent | src/lib/storage.ts:114-119 | on success events becomes ReplaceById of the old events, the rest unchanged; on failure the file is unchanged |
| Storage.DeleteEvent | src/lib/storage.ts:121-126 | on success events becomes RemoveById of the old events, the rest unchanged; on failure the file is unchanged |
| Storage.AddSetlist | src/lib/storage.ts:129-134 | on success setlists gains the setlist at the end, the rest unchanged; on failure the file is unchanged |
| Storage.UpdateSetlist | src/lib/storage.ts:136-141 | on success setlists becomes ReplaceById of the old setlists, the rest unchanged; on failure the file is unchanged |
| Storage.DeleteSetlist | src/lib/storage.ts:143-148 | on success setlists becomes RemoveById of the old setlists, the rest unchanged; on failure the file is unchanged |
| StorageInit.InitializeStorage | src/lib/storageInit.ts:10-23 | on success the file holds exactly the seed document whatever it held before (an overwrite, hence idempotent); a failed save is passed to the caller with the file unchanged |
| MemoryStoreModel.MemoryStore.constructor | src/lib/memoryStore.ts:16-19 | a fresh store holds no data and is not initialised, so the invariant `isInitialized <==> data != null` holds |
| MemoryStoreModel.MemoryStore.SetData | src/lib/memoryStore.ts:28-32 | afterwards data is the given document, the store is initialised, and the invariant holds |
| MemoryStoreModel.MemoryStore.GetData | src/lib/memoryStore.ts:34-41 | returns the held data (none if cleared or never set) and changes nothing |
| MemoryStoreModel.MemoryStore.IsReady | src/lib/memoryStore.ts:43-45 | true exactly when initialised and holding data; under the invariant, exactly when holding data; changes nothing |
| MemoryStoreModel.MemoryStore.Clear | src/lib/memoryStore.ts:47-51 | afterwards there is no data, the store is not initialised, and the invariant holds |
| MemoryStoreModel.MemoryStoreStatics.constructor | src/lib/memoryStore.ts:15 | no instance exists before the first getInstance |
| MemoryStoreModel.MemoryStoreStatics.GetInstance | src/lib/memoryStore.ts:21-26 | the first call creates a fresh empty store; every later call returns that same instance |
| StableSort.Insert | src/components/tabs/DashboardTab.tsx:20 | inserting keeps the multiset of elements plus the new one |
| StableSort.InsertSorted | src/components/tabs/DashboardTab.tsx:20 | inserting into a non-increasing sequence keeps it non-increasing |
| StableSort.Sort | src/components/tabs/DashboardTab.tsx:20 | the sorted sequence is a permutation of the input (same multiset and length) in non-increasing key order |
| StableSort.InsertWithKey | src/components/tabs/DashboardTab.tsx:20 | an inserted element goes before every equal-key element already placed (the insertion step of stability) |
| StableSort.SortIsStable | src/components/tabs/DashboardTab.tsx:20 | for every key, the elements with that key appear in the same order as in the input |
| StableSort.StableRanking | src/components/tabs/PredictionTab.tsx:39 | what a stable sort must return: the same elements in non-increasing key order, each key's elements in input order; no contract of its own, its meaning is fixed by SortIsStableRanking and StableRankingUnique |
| StableSort.SortIsStableRanking | src/components/tabs/PredictionTab.tsx:39 | the insertion sort returns a stable ranking of its input |
| StableSort.WithKeyMember | src/components/tabs/DashboardTab.tsx:20 | an element is among those with a key exactly when it is in the sequence and has that key |
| StableSort.SameKeysSorted | src/components/tabs/PredictionTab.tsx:39 | two sorted sequences that agree on the elements of every key are equal |
| StableSort.StableRankingUnique | src/components/tabs/PredictionTab.tsx:39 | a stable sort has exactly one possible result, so which of several equal-key elements come first is determined |
| StableSort.TopPrefix | src/components/tabs/PredictionTab.tsx:39-40 | the first n elements of a sorted sequence are sorted, drawn from it, and nothing left out has a key above the n-th |
| SetlistMetrics.Contains | src/components/tabs/DashboardTab.tsx:12 | `sl.songs.some(s => s.songId === id)`; no contract of its own, its meaning is fixed through Performances and RepeatCountsOnce |
| SetlistMetrics.Performances | src/components/tabs/DashboardTab.tsx:11-13 | the number of setlists containing the song is at most the number of setlists |
| SetlistMetrics.PerformancesConcat | src/components/tabs/DashboardTab.tsx:11-13 | performance counts add up over concatenated setlist collections |
| SetlistMetrics.RepeatCountsOnce | src/components/tabs/DashboardTab.tsx:11-13 | a song repeated within one setlist makes that setlist count once |
| SetlistMetrics.TotalSlots | src/components/tabs/DashboardTab.tsx:24-28 | `totalOpportunities`, one per (setlist, song) slot; no contract of its own, its meaning is fixed by CountParticipation (the loop counts exactly it), Participation and MemberRankingBounds |
| SetlistMetrics.SlotsWith | src/components/tabs/DashboardTab.tsx:27-32 | the slots of one setlist listing the member; its own ensures is only the bound by the slots, and it is tied to the loop by CountParticipation |
| SetlistMetrics.Participation | src/components/tabs/DashboardTab.tsx:26-33 | a member's participation count is at most the total number of slots |
| SetlistMetrics.RoundedTenths | src/components/tabs/DashboardTab.tsx:18 | the `toFixed(1)` rate in tenths of a percent, also used at line 39; no contract of its own, its meaning is fixed by RoundedTenthsBounds and RoundedTenthsAtMostHundred |
| SetlistMetrics.RoundedTenthsBounds | src/components/tabs/DashboardTab.tsx:18 | the displayed one-decimal rate is within half a tenth of the exact percentage |
| SetlistMetrics.RoundedTenthsAtMostHundred | src/components/tabs/DashboardTab.tsx:39 | a count no larger than its total displays as at most 100.0% |
| Dashboard.SongStatOf | src/components/tabs/DashboardTab.tsx:11-19 | one songStats entry before sorting; no contract of its own, its meaning is fixed by SongStatRate |
| Dashboard.ByPerformances | src/components/tabs/DashboardTab.tsx:20 | the songStats sort key, the raw count; no contract of its own, its meaning is fixed by SongStatsRanked |
| Dashboard.SongStats | src/components/tabs/DashboardTab.tsx:10-20 | `songStats`; no contract of its own, its meaning is fixed by SongStatsRanked and FiftyPercentFigure |
| Dashboard.SongStatsUnsorted | src/components/tabs/DashboardTab.tsx:10-19 | one entry per song, in song order, each the song's id, title, count and rate |
| Dashboard.SongStatRate | src/components/tabs/DashboardTab.tsx:11-18 | performances ≤ setlists; the rate is 0 with no setlists, otherwise the exact `performances/setlists·100` rounded to a tenth, and never above 100.0 |
| Dashboard.SongStatsRanked | src/components/tabs/DashboardTab.tsx:10-20 | songStats is a permutation of the per-song entries with one per song, in non-increasing performances; equal counts keep song order |
| Dashboard.HalfOrMore | src/components/tabs/DashboardTab.tsx:122 | the filter test `parseInt(adoptionRate) >= 50`; no contract of its own, its meaning is fixed by HalfOrMoreThreshold and FiftyPercentFigure |
| Dashboard.HighAdoptionCount | src/components/tabs/DashboardTab.tsx:122 | the `filter(...).length` of the "50%+ Adoption" figure; its own ensures is only the bound by the number of entries, and its meaning is fixed by FiftyPercentFigure against the reference count |
| Dashboard.HalfOrMoreThreshold | src/components/tabs/DashboardTab.tsx:122 | the integer part of the displayed rate is ≥ 50 exactly when 2000·performances ≥ 999·setlists, so 49.95% already counts |
| Dashboard.HighAdoptionCountConcat | src/components/tabs/DashboardTab.tsx:122 | the count adds up over concatenations |
| Dashboard.HighAdoptionCountPermutation | src/components/tabs/DashboardTab.tsx:122 | the count does not depend on the order of the entries |
| Dashboard.HighAdoptionUnsorted | src/components/tabs/DashboardTab.tsx:122 | over the unsorted entries the count equals the reference count of songs meeting the threshold |
| Dashboard.FiftyPercentFigure | src/components/tabs/DashboardTab.tsx:122 | the figure shown equals the number of songs whose rate has integer part ≥ 50 (none with no setlists), at most the number of songs |
| Dashboard.MemberStatOf | src/components/tabs/DashboardTab.tsx:22-40 | one memberStats entry before sorting; no contract of its own, its meaning is fixed by MemberRankingBounds |
| Dashboard.ByWholePercent | src/components/tabs/DashboardTab.tsx:41 | the memberStats sort key, `parseInt` of the one-decimal rate; no contract of its own, its meaning is fixed by MemberRankingOrdered and CoarseTieKeepsOrder |
| Dashboard.MemberRanking | src/components/tabs/DashboardTab.tsx:22-41 | `memberStats`; no contract of its own, its meaning is fixed by MemberStats (the loops compute it), MemberRankingOrdered and MemberRankingBounds |
| Dashboard.MemberStatsUnsorted | src/components/tabs/DashboardTab.tsx:22-40 | one entry per member, in member order, each the member's count and one-decimal rate |
| Dashboard.CountParticipation | src/components/tabs/DashboardTab.tsx:23-33 | the nested loops count exactly the total slots and the slots listing the member, and the latter is at most the former |
| Dashboard.MemberStats | src/components/tabs/DashboardTab.tsx:22-41 | the loop-built member statistics, once sorted, are exactly the member ranking |
| Dashboard.MemberRankingOrdered | src/components/tabs/DashboardTab.tsx:41 | memberStats is a permutation with one entry per member, in non-increasing whole-number rate; equal whole parts keep member order |
| Dashboard.MemberRankingBounds | src/components/tabs/DashboardTab.tsx:24-39 | each count is at most the slot total shared by every member, each rate at most 100.0%, and 0 when there are no slots |
| Dashboard.CoarseTieKeepsOrder | src/components/tabs/DashboardTab.tsx:41 | 87.1% listed before 87.9% stays first, since both compare as 87 |
| Prediction.AvailableMembers | src/components/tabs/PredictionTab.tsx:18-21 | the available members are an order-preserving subsequence of the defaults, no longer than them, holding each attending default exactly as often as the defaults do (duplicates kept) and no other member |
| Prediction.AvailableAllAttend | src/components/tabs/PredictionTab.tsx:19-21 | when every default attends, the available members are the defaults themselves |
| Prediction.AvailableNoneAttend | src/components/tabs/PredictionTab.tsx:19-21 | when no default attends, none is available |
| Prediction.AvailableConcat | src/components/tabs/PredictionTab.tsx:19-21 | the filter distributes over concatenated lineups |
| Prediction.DuplicateDefaultCountsTwice | src/components/tabs/PredictionTab.tsx:19-31 | a member listed twice among the defaults counts twice, so with that member attending the song is at 100% and kept |
| Prediction.FindEvent | src/components/tabs/PredictionTab.tsx:13 | none exactly when no event has the id; otherwise the first event with it |
| Prediction.HistoricalAdoption | src/components/tabs/PredictionTab.tsx:22-24 | `adoptionRate`, performances over max(setlists, 1); no contract of its own, its meaning is fixed by ScoreInUnitInterval |
| Prediction.Availability | src/components/tabs/PredictionTab.tsx:31 | the attending fraction of the default lineup; no contract of its own, its meaning is fixed by EligibleIffSixtyPercent |
| Prediction.Eligible | src/components/tabs/PredictionTab.tsx:38 | the filter test `availabilityRate >= 60`; no contract of its own, its meaning is fixed by EligibleIffSixtyPercent, SixtyPercentKept and OneInEightDropped |
| Prediction.Score | src/components/tabs/PredictionTab.tsx:33-35 | `predictionScore`; no contract of its own, its meaning is fixed by ScoreInUnitInterval and ShortlistRanked |
| Prediction.PredictSong | src/components/tabs/PredictionTab.tsx:17-36 | one song's prediction record; no contract of its own, its meaning is fixed by ScoreInUnitInterval, DuplicateDefaultCountsTwice, SixtyPercentKept and OneInEightDropped |
| Prediction.PredictAll | src/components/tabs/PredictionTab.tsx:16-37 | one prediction per song, in song order |
| Prediction.KeepEligible | src/components/tabs/PredictionTab.tsx:38 | keeps the eligible predictions in order, each exactly as often as in the input, and no other |
| Prediction.Candidates | src/components/tabs/PredictionTab.tsx:16-38 | the eligible songs before ranking; no contract of its own, its meaning is fixed by CandidateOrigin and PredictionsRanked |
| Prediction.Shortlist | src/components/tabs/PredictionTab.tsx:39-40 | the sort by descending score and the slice to four; no contract of its own, its meaning is fixed by ShortlistRanked and TiedScoresKeepOrder |
| Prediction.Predict | src/components/tabs/PredictionTab.tsx:10-46 | null exactly when no event id is selected or no event has it; otherwise the first matching event and at most 4 predictions |
| Prediction.ShortlistRanked | src/components/tabs/PredictionTab.tsx:39-40 | the sorted, sliced list has min(4, candidates) entries in non-increasing score, drawn from the candidates, and no left-out candidate scores above its last entry; it is the first min(4, candidates) entries of the one stable ranking, so among equal scores the earliest candidates are kept |
| Prediction.TiedScoresKeepOrder | src/components/tabs/PredictionTab.tsx:39-40 | when every candidate scores the same, the shortlist is the first four candidates in song order |
| Prediction.CandidateOrigin | src/components/tabs/PredictionTab.tsx:16-38 | every candidate is an eligible prediction of one of the songs |
| Prediction.PredictionsRanked | src/components/tabs/PredictionTab.tsx:13-40 | for a selected id that some event has, a prediction exists with min(4, candidates) entries in non-increasing score, each an eligible prediction of a song, drawn from the candidates without repetition; no left-out candidate scores above the last entry; they are the first entries of the stable ranking of the candidates, so equal scores keep song order |
| Prediction.ScoreInUnitInterval | src/components/tabs/PredictionTab.tsx:19-35 | available ≤ defaults; adoption `performances / max(setlists, 1)` and the score lie in [0, 1] |
| Prediction.EligibleIffSixtyPercent | src/components/tabs/PredictionTab.tsx:31-38 | eligible exactly when there are default members and availability·100 ≥ 60; exactly 60% passes, none with no defaults (0/0 is NaN) |
| Prediction.SixtyPercentKept | src/components/tabs/PredictionTab.tsx:31-38 | for any ids, three of five defaults attending (exactly 60%) keeps the song |
| Prediction.OneInEightDropped | src/components/tabs/PredictionTab.tsx:31-38 | for any ids, one of eight defaults attending drops the song |
| ExportRoute.Export | src/app/api/export/route.ts:10-19 | the backup object; no contract of its own, its meaning is fixed by ExportRoute.Get and ExportPassesValidation |
| ExportRoute.Get | src/app/api/export/route.ts:7-19 | the backup has version "1.0", the given timestamp, and exactly the store's four collections; nothing is modified |
| Backup.Truthy | src/app/api/import/route.ts:23 | JavaScript truthiness: undefined, null, false, 0 and "" are falsy, objects and arrays truthy; no contract of its own, its meaning is fixed by Validate and ExportPassesValidation |
| ImportRoute.Items | src/app/api/import/route.ts:30 | the destructuring default `= []` for a missing field; no contract of its own, its meaning is fixed by Validate |
| ImportRoute.Validate | src/app/api/import/route.ts:23-38 | rejected with "Missing version or data field" when version or data is falsy (an empty version included), with "Data fields must be arrays" when a present field is not an array; otherwise the four arrays, a missing one read as empty |
| ImportRoute.Survivors | src/app/api/import/route.ts:48-54 | the records whose add succeeds form an order-preserving subsequence of the input |
| ImportRoute.SurvivorsSnoc | src/app/api/import/route.ts:48-54 | one more loop iteration appends the record exactly when its save succeeds |
| ImportRoute.SurvivorsComplete | src/app/api/import/route.ts:48-54 | never more survivors than records, and all of them exactly when every save succeeds |
| ImportRoute.SurvivorsNone | src/app/api/import/route.ts:48-54 | when every save fails nothing survives |
| ImportRoute.ImportMembers | src/app/api/import/route.ts:48-54 | the member loop appends the successfully added members in order, skips failures, and changes no other collection |
| ImportRoute.ImportSongs | src/app/api/import/route.ts:57-63 | the song loop appends the successfully added songs in order and changes no other collection |
| ImportRoute.ImportEvents | src/app/api/import/route.ts:66-72 | the event loop appends the successfully added events in order and changes no other collection |
| ImportRoute.ImportSetlists | src/app/api/import/route.ts:75-81 | the setlist loop appends the successfully added setlists in order and changes no other collection |
| ImportRoute.Post | src/app/api/import/route.ts:17-93 | an invalid backup gets status 400 with its reason and no store change; a valid one is imported members, songs, events, setlists in turn, and the response reports the backup's own counts whatever failed |
| ImportRoute.ImportedDocument | src/app/api/import/route.ts:47-81 | the store after the four import loops; no contract of its own, its meaning is fixed by Post (the loops compute it), ImportAllSucceed, ImportAllFail and ImportOnlyAppends |
| ImportRoute.ImportAllSucceed | src/app/api/import/route.ts:47-81 | with every save succeeding each collection becomes old ++ imported, in input order |
| ImportRoute.ImportAllFail | src/app/api/import/route.ts:47-81 | with every save failing the store's document is unchanged |
| ImportRoute.ImportOnlyAppends | src/app/api/import/route.ts:47-81 | an import never removes or reorders existing records and adds at most the backup's records |
| ImportRoute.ExportPassesValidation | src/app/api/export/route.ts:10-19 | every exported backup passes the import validation and carries exactly the exported document |
| ImportRoute.ExportThenImportIntoEmpty | src/app/api/import/route.ts:23-81 | exporting and importing into an empty store, every save succeeding, restores the document |
| ImportRoute.ExportThenImportDoubles | src/app/api/import/route.ts:23-81 | importing a store's own export back into it, every save succeeding, doubles every collection (S ++ S) |
| ImportRoute.ExportThenImportDuplicates | src/app/api/import/route.ts:47-54 | after that re-import, each member id present before has two or more records |

## Left out

- File-system access is not modelled: the data-file path, directory creation, `readFileSync`/`writeFileSync`, `JSON.parse` and `JSON.stringify`. The file is an abstract `DataFile` whose content is missing, unparsable or a document, and a write either succeeds or fails as a whole.
- Storage.SaveData: a write that fails after truncating the file is not modelled; a failed write leaves the old content.
- Records inside a parsed file or a backup are taken to be well-formed; a JSON document missing a collection, or holding records of the wrong shape, is not modelled.
- The HTTP wrappers in src/app/api/{members,songs,events,setlists,init}/route.ts, and the status codes they add around the storage calls, are not part of this model.
- ImportRoute.Post: a body that is not JSON, or is `null`, makes `request.json()` or the property access throw and the route answer 500. This path is not modelled; the envelope is given as already decoded.
- Logging (`console.log`/`console.error`) is not modelled.
- The clock (`exportedAt`, `new Date().toISOString()`) and id generation are not modelled; timestamps are parameters.
- Concurrency is not modelled: requests are sequential here, so the lost updates between concurrent read-modify-write requests do not arise.
- Dashboard.SongStatRate, Dashboard.MemberRankingBounds, Prediction.Score: rates are exact rationals, and `toFixed(1)` is rounding half up of the exact rate. IEEE-754 artefacts at rounding or at the 60% and 50% boundaries are not modelled.
- StorageInit.InitializeStorage: the seed is represented by the first record of each collection in src/data/dummyData.ts; the remaining literal records are not reproduced.
- MemoryStoreModel.MemoryStore.SetData: the store holds the document as a value, so aliasing between the cached object and the caller's object is not modelled. The per-object ghost invariant `Valid` is what `setData`/`clear` preserve; the singleton's `instance` is a field of `MemoryStoreStatics` rather than a static.
- The React rendering, form state and data-fetching provider (src/components/DataProvider.tsx and the other tabs) are not part of this model, nor is the date sorting in the events and setlist tabs.
