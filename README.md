# Call tracker: a Dafny model

This project models the core of a call-outcome dashboard. A salesperson
tags each phone call with one of thirteen outcomes. The tracker keeps the
calls of the working session newest first and derives statistics from
them. It persists the session in browser storage and rebuilds the history
of all sessions from there. It also imports calls from CSV and JSON. The
screens on top of it are modelled too:

- the daily sales board, with four time windows, their targets and the
  overflow between them;
- the twelve-week activity grid;
- the outcome button table, the CSV export of today's calls, and the note
  fields.

Modules, one file each:

| module | file | models |
|---|---|---|
| `Wrappers` | wrappers.dfy | `Option`, `Result` |
| `Text` | text.dfy | `trim`, `split`, `join`, `toLowerCase`, `includes`, `replace(/"/g, '')`, `parseInt`, decimal text |
| `CallTypes` | types.dfy | outcomes, records, sessions, statistics, parsed JSON values |
| `Clock` | clock.dfy | local day and minute of a time value for a fixed zone offset |
| `Records` | records.dfy | the edit (`map`) and delete (`filter`) of records |
| `Stats` | stats.dfy | `calculateStats` |
| `Storage` | storage.dfy | storage keys, `saveSessionToStorage`, `loadAllHistoricalCalls` |
| `CsvImport` | csvimport.dfy | `importFromCSV` |
| `JsonImport` | jsonimport.dfy | `importFromJSON` |
| `Tracker` | tracker.dfy | the hook: state, persist effect, mount, operations (class `CallTracker`) |
| `DailySales` | dailysales.dfy | the daily sales board |
| `ActivityGrid` | activitygrid.dfy | the activity grid |
| `TrackerView` | trackerview.dfy | the tracker screen (class `TrackerScreen`) |

Design choices:

- Hook state is the class `Tracker.CallTracker`. Each of its operations
  ends with `Persist`, the effect that React runs when the call list
  changes.
- Storage is a value of type `Storage.Store`. Each key holds one of three
  things:
  - `Missing`: nothing is stored under the key;
  - `Held(v)`: the key holds a readable value;
  - `Garbled`: the key holds text that `JSON.parse` rejects.
- Values the source takes from the environment are parameters:
  - the clock, `now`;
  - the zone offset, `zone`;
  - the random id suffixes;
  - translation, `t`;
  - `toLocaleTimeString` and `toLocaleDateString`;
  - the date that `new Date(...)` reads from a JSON value.
- A record's outcome is `Tagged(o)` when it carries one of the thirteen
  tags. It is `Cast(v)` when the JSON import copied some other truthy
  value without checking it.

### Where the code departs from its documented behaviour

The model follows the code in each of these cases:

- The history is not de-duplicated by id (`Storage.NoDeduplication`).
- A session blob that does not parse makes the whole rebuild throw
  (`Storage.GarbledBlobThrows`). It is not skipped.
- A current-session blob that does not parse makes the mount fail. The
  tracker does not fall back to a fresh session (`Tracker.CallTracker.Mount`).
- The JSON import reads a `calls` field, not `records`
  (`JsonImport.RecordsFieldIgnored`).
- An unrecognised top-level shape imports nothing and reports no error
  (`JsonImport.OtherShapesImportNothing`).
- JSON outcomes are cast, not validated (`JsonImport.CastOutcome`).
- There is no legacy read path for a single flat history blob. The
  `getDayKey` helper is never called.
- Exporting and then importing does not give back the same outcomes:
  - the export writes translated captions;
  - the import matches tags by substring;
  - so "Confirmed Sale" matches no outcome (`CsvImport.ConfirmedSaleLabelUnmatched`);
  - and "DNC (Do Not Call)" is read as `no` (`CsvImport.DncLabelReadsAsNo`).

## Model

| member | source | states |
|---|---|---|
| CallTypes.AllOutcomesExact | src/types/call-tracker.ts:1-14 | there are exactly thirteen outcomes, every outcome is listed, and none twice |
| CallTypes.KeyRoundTrip | src/types/call-tracker.ts:1-14 | reading back an outcome's string tag gives the outcome |
| CallTypes.KeyInjective | src/types/call-tracker.ts:1-14 | distinct outcomes have distinct tags |
| CallTypes.FromKey | src/types/call-tracker.ts:1-14 | a tag that is recognised is the tag of the outcome returned |
| Text.TrimStart | src/hooks/useCallTracker.ts:222 | `parseInt` drops only leading white space: what remains is a suffix that does not start with white space |
| Text.Trim | src/hooks/useCallTracker.ts:205 | the trimmed text is a contiguous slice of the input with only white space before and after it, and it is empty exactly when the input is all white space |
| Text.TrimEnds | src/hooks/useCallTracker.ts:205 | trimmed text neither starts nor ends with white space |
| Text.TrimIdempotent | src/components/CallTracker.tsx:43 | trimming twice is trimming once |
| Text.Split | src/hooks/useCallTracker.ts:205-221 | a split has at least one piece, and no piece holds the separator |
| Text.JoinSplit | src/hooks/useCallTracker.ts:205-212 | joining the pieces of a split with the same separator gives back the text |
| Text.SplitJoin | src/components/CallTracker.tsx:71-78 | splitting a join of separator-free pieces gives back the pieces |
| Text.RemoveQuotes | src/hooks/useCallTracker.ts:216 | the result has no double quote and keeps exactly the other characters |
| Text.RemoveQuotesConcat | src/hooks/useCallTracker.ts:216 | quotes are removed piece by piece, so the kept characters stay in order and keep their number |
| Text.NatDigits | src/hooks/useCallTracker.ts:117 | the decimal text of a number is non-empty and made of digits |
| Text.NatDigitsInjective | src/hooks/useCallTracker.ts:117 | distinct numbers have distinct decimal texts |
| Text.ParseIntNatDigits | src/hooks/useCallTracker.ts:222 | `parseInt` reads back the decimal text of any non-negative number |
| Clock.LocalMinute | src/components/DailySalesTracker.tsx:33 | the local minute of the day lies in 0..1439 |
| Clock.LocalTimeOnDay | src/hooks/useCallTracker.ts:226 | an in-range clock time built on a day lands on that day at that minute |
| Records.UpdateById | src/hooks/useCallTracker.ts:141-149 | the edit keeps length, order, ids and timestamps; calls with the id get the outcome and notes; the others, and a list without the id, are unchanged |
| Records.DeleteById | src/hooks/useCallTracker.ts:151-153 | the list shrinks by the number of calls with the id |
| Records.DeleteMembers | src/hooks/useCallTracker.ts:152 | exactly the calls with another id remain after a delete |
| Records.DeleteConcat | src/hooks/useCallTracker.ts:152 | deleting from a concatenation deletes from each part |
| Records.DeleteAbsent | src/hooks/useCallTracker.ts:152 | deleting an absent id changes nothing |
| Records.DeleteIsSubsequence | src/hooks/useCallTracker.ts:152 | the survivors of a delete keep their relative order |
| Stats.Percent | src/hooks/useCallTracker.ts:171-172 | a ratio is 0 when its denominator is 0, lies in [0, 100] when the numerator is at most the denominator, and is 100 when they are equal |
| Stats.CalculateStats | src/hooks/useCallTracker.ts:155-202 | the totals, the ratios and the tally it computes are the statistics that the filters and the counters define |
| Stats.CountOutcomes | src/hooks/useCallTracker.ts:175-193 | each of the thirteen counters holds the number of calls whose outcome, used as a property key, names its tag |
| Stats.HitsAll | src/hooks/useCallTracker.ts:191-193 | a record bumps exactly one of the thirteen counters when its outcome names a tag, and none otherwise |
| Stats.SumTagsAll | src/hooks/useCallTracker.ts:191-193 | the thirteen counters plus the calls that name no tag add up to the number of calls |
| Stats.OutcomeCountsSum | src/hooks/useCallTracker.ts:175-193 | the outcome-count table sums to the total, less the cast records whose text names no tag; those are among the cast records |
| Stats.KeyCountCoversTags | src/hooks/useCallTracker.ts:155-193 | a counter is at least the strict-equality count of its tag and at most that plus the cast records; with no cast record they agree |
| Stats.CastArrayBumpsNo | src/hooks/useCallTracker.ts:160-193 | an outcome kept as the array `["no"]` bumps the `no` counter but is no negative call for the ratios |
| Stats.YesCountSplit | src/hooks/useCallTracker.ts:160-162 | affirmative calls are the pending yeses plus the confirmed sales |
| Stats.EngagedBound | src/hooks/useCallTracker.ts:168-172 | affirmative plus negative calls never exceed all calls |
| Stats.StatsBounds | src/hooks/useCallTracker.ts:155-202 | confirmed sales are at most the affirmative calls; engaged calls are at most all calls; both ratios lie in [0, 100]; each ratio is 0 when its denominator is |
| Stats.NegativeIsOnlyNo | src/hooks/useCallTracker.ts:164-169 | an `absolutely-no` or `hangup` call adds nothing to the engaged calls |
| Stats.StatsExample | src/hooks/useCallTracker.ts:155-172 | three confirmed sales, two pending yeses, four noes and a hangup give ten calls, three sales, a yes ratio of 500/9 and an engagement of 90 |
| Storage.KeysDistinct | src/hooks/useCallTracker.ts:4-14 | a session key never equals the two fixed keys, and distinct session ids have distinct keys |
| Storage.AddIfAbsent | src/hooks/useCallTracker.ts:53-56 | the index afterwards names the id; it is unchanged if the id was present, and the id is appended otherwise |
| Storage.AddIfAbsentNoDuplicates | src/hooks/useCallTracker.ts:53-56 | adding an id keeps the index free of duplicates |
| Storage.SavedStore | src/hooks/useCallTracker.ts:38-57 | saving writes the session's blob and no other blob; the current key is untouched; a readable index gains the id if absent; a garbled index stays garbled |
| Storage.SaveIdempotent | src/hooks/useCallTracker.ts:38-57 | saving the same session twice is saving it once |
| Storage.SaveNoDuplicates | src/hooks/useCallTracker.ts:38-57 | a save keeps the index free of duplicates |
| Storage.SaveKnownSessionIndex | src/hooks/useCallTracker.ts:53-56 | re-saving a session the index names leaves the index as it was |
| Storage.LoadAllHistoricalCalls | src/hooks/useCallTracker.ts:16-36 | the loop computes the history: no index gives none; a garbled index or blob throws; missing blobs are skipped; the others' calls are concatenated in index order |
| Storage.HistoryErrorSticks | src/hooks/useCallTracker.ts:23-33 | once a blob has thrown, more ids do not recover the rebuild |
| Storage.HistoryConcat | src/hooks/useCallTracker.ts:23-33 | the rebuild over two id lists is the concatenation of the two rebuilds |
| Storage.HistoryOkIff | src/hooks/useCallTracker.ts:23-33 | the rebuild succeeds exactly when no named blob is garbled |
| Storage.HistoryMembers | src/hooks/useCallTracker.ts:23-33 | a record is in the history exactly when some named, readable blob holds it |
| Storage.HistoryFrame | src/hooks/useCallTracker.ts:23-33 | the rebuild depends only on the blobs the index names |
| Storage.HistoryHasSession | src/hooks/useCallTracker.ts:23-33 | a session the index names and whose blob is readable has every call in the history |
| Storage.SaveNewSessionHistory | src/hooks/useCallTracker.ts:38-57 | saving a session the index does not name adds its calls at the end of the history |
| Storage.NoDeduplication | src/hooks/useCallTracker.ts:23-33 | one record held by two session blobs appears twice in the history |
| Storage.GarbledBlobThrows | src/hooks/useCallTracker.ts:24-26 | one garbled blob named by the index makes the whole rebuild fail |
| CsvImport.ConvertHour | src/hooks/useCallTracker.ts:222-224 | PM gives hour + 12, except 12 stays 12; AM 12 gives 0; other AM hours stay; any other period leaves the hour alone; NaN stays NaN |
| CsvImport.ConvertHourInvertsTo12 | src/hooks/useCallTracker.ts:222-224 | converting back a 12-hour rendering with AM/PM gives the 24-hour hour |
| CsvImport.ConvertHourRange | src/hooks/useCallTracker.ts:222-224 | an hour 1..12 with AM or PM becomes an hour 0..23 |
| CsvImport.ParseIntPad2 | src/hooks/useCallTracker.ts:226 | a two-digit minute reads back as its number |
| CsvImport.ClockTextSplits | src/hooks/useCallTracker.ts:219-221 | a clock text splits at the space into the clock and the period, and the clock splits at the colons into its three numbers |
| CsvImport.ClockTextRoundTrip | src/hooks/useCallTracker.ts:219-226 | a time written `h:mm:ss AM/PM` is read back as that clock time on today's local day |
| CsvImport.KeysLowerCase | src/hooks/useCallTracker.ts:243 | every tag is its own lower case, so `key.toLowerCase()` changes no key |
| CsvImport.OutcomeKeys | src/hooks/useCallTracker.ts:229-243 | the lower-cased keys of the object literal are the tags, in declaration order |
| CsvImport.FirstMatch | src/hooks/useCallTracker.ts:229-243 | the key found is the first that occurs in the lower-cased caption; none is found exactly when no key occurs |
| CsvImport.ConfirmedSaleLabelUnmatched | src/hooks/useCallTracker.ts:229-243 | the exported caption "Confirmed Sale" matches no outcome |
| CsvImport.NoTagInConfirmedSale | src/hooks/useCallTracker.ts:243 | no outcome tag occurs in "confirmed sale" |
| CsvImport.DncLabelReadsAsNo | src/hooks/useCallTracker.ts:229-243 | the exported caption "DNC (Do Not Call)" is read as `no` |
| CsvImport.ImportCsvRows | src/hooks/useCallTracker.ts:204-257 | the import gives nothing below two lines, and otherwise the records of the data rows in file order |
| CsvImport.ImportRows | src/hooks/useCallTracker.ts:211-254 | the row loop collects the parse of every data row |
| CsvImport.ImportNoneIffOneLine | src/hooks/useCallTracker.ts:205-206 | the import does nothing exactly when the trimmed text has no line break |
| CsvImport.RowWithoutCommaSkipped | src/hooks/useCallTracker.ts:212-213 | a row with no comma yields no record |
| CsvImport.RowImportedIff | src/hooks/useCallTracker.ts:212-252 | a row yields a record exactly when it has two fields and its caption names an outcome; the record then carries that tag and the row's id |
| CsvImport.ImportedShape | src/hooks/useCallTracker.ts:211-254 | there is at most one record per data row; each is tagged and carries the id of its own row |
| JsonImport.Field | src/hooks/useCallTracker.ts:266 | reading a field of `null` throws; a field the object has is found with its value; a field found is the object's own value |
| JsonImport.CastOutcome | src/hooks/useCallTracker.ts:269 | the outcome is a tag exactly when the value is a tag string; any other value is kept as it is |
| JsonImport.ItemRecord | src/hooks/useCallTracker.ts:265-273 | a `null` item throws; an item yields a record exactly when its outcome and timestamp are truthy; the record is built from its fields |
| JsonImport.CollectItems | src/hooks/useCallTracker.ts:265-274 | the item loop collects the records of all items, or throws |
| JsonImport.ImportFromJson | src/hooks/useCallTracker.ts:259-294 | the import throws on unparsable text or `null`, reads an array or a `calls` array, and imports nothing from other shapes |
| JsonImport.CollectErrorSticks | src/hooks/useCallTracker.ts:265-274 | once an item has thrown, later items cannot recover the import |
| JsonImport.CollectOkIff | src/hooks/useCallTracker.ts:265-274 | collecting succeeds exactly when no item is `null` |
| JsonImport.CollectedRecords | src/hooks/useCallTracker.ts:265-274 | every record comes from a qualifying item, and every qualifying item gives a record |
| JsonImport.SessionFormatIsArrayFormat | src/hooks/useCallTracker.ts:275-287 | an object with a `calls` array imports the same records as that array |
| JsonImport.OtherShapesImportNothing | src/hooks/useCallTracker.ts:264-287 | any other non-null value imports nothing and raises no error |
| JsonImport.RecordsFieldIgnored | src/hooks/useCallTracker.ts:275 | an object holding only a `records` array imports nothing |
| JsonImport.SessionExample | src/hooks/useCallTracker.ts:275-287 | a session object with one `no` item imports one `no` record with a fresh id and no notes |
| Tracker.SessionIdInjective | src/hooks/useCallTracker.ts:117 | sessions started at different instants get different ids |
| Tracker.PersistFailsBeforeWriting | src/hooks/useCallTracker.ts:98-104 | a call with an Invalid Date stops the persist before anything is written |
| Tracker.PersistMirrorsSession | src/hooks/useCallTracker.ts:90-113 | after a persist the current key and the session's blob hold the session; other blobs are unchanged; the index grows as a prefix and, on success, names the session |
| Tracker.PersistHistory | src/hooks/useCallTracker.ts:106-111 | the persist succeeds exactly when the save succeeds and the new store rebuilds; the history then holds every call of the session |
| Tracker.PersistIdempotent | src/hooks/useCallTracker.ts:90-113 | persisting the same session twice is persisting it once |
| Tracker.PersistNoDuplicates | src/hooks/useCallTracker.ts:90-113 | a persist keeps the index free of duplicates |
| Tracker.PersistNewSessionHistory | src/hooks/useCallTracker.ts:90-113 | persisting a session the index does not yet name appends its calls to the old history |
| Tracker.NewSessionKeepsHistory | src/hooks/useCallTracker.ts:115-123 | starting a new session keeps the history of the earlier sessions |
| Tracker.CallTracker.constructor | src/hooks/useCallTracker.ts:60-62 | the hook starts with no session and no calls |
| Tracker.CallTracker.SaveSessionToStorage | src/hooks/useCallTracker.ts:38-57 | the store becomes the saved store, and nothing else changes |
| Tracker.CallTracker.Persist | src/hooks/useCallTracker.ts:90-113 | without a session nothing happens; otherwise storage is written as the persist says, and on success the tracker is in sync and the history holds every live call |
| Tracker.CallTracker.StartNewSession | src/hooks/useCallTracker.ts:115-123 | a fresh empty session is started and persisted; other blobs are untouched and the index only grows |
| Tracker.CallTracker.Mount | src/hooks/useCallTracker.ts:64-87 | the history is loaded first; then the tracker resumes a saved session, or starts a new one when none is saved, or fails on a garbled one |
| Tracker.CallTracker.AddCall | src/hooks/useCallTracker.ts:125-139 | the new record goes in front of the list, and the list is persisted |
| Tracker.CallTracker.UpdateCall | src/hooks/useCallTracker.ts:141-149 | the list becomes its edit by id, and is persisted |
| Tracker.CallTracker.DeleteCall | src/hooks/useCallTracker.ts:151-153 | the list becomes its filter by id, and is persisted |
| Tracker.CallTracker.ImportFromCsv | src/hooks/useCallTracker.ts:204-257 | text below two lines changes nothing; otherwise the imported records go in front, and the list is persisted |
| Tracker.CallTracker.ImportFromJson | src/hooks/useCallTracker.ts:259-294 | a throw leaves the tracker unchanged and reports invalid JSON; otherwise the imported records go in front, and the list is persisted |
| DailySales.HHMM | src/components/DailySalesTracker.tsx:33 | the clock text of a minute has five characters |
| DailySales.HHMMOrder | src/components/DailySalesTracker.tsx:33-34 | comparing clock texts as strings orders them as the minutes they show |
| DailySales.SlotsTable | src/components/DailySalesTracker.tsx:22-27 | the four windows are 09:00-10:50, 10:50-12:45, 12:45-15:30 and 15:30-17:30, each ending where the next begins |
| DailySales.InSlotIff | src/components/DailySalesTracker.tsx:31-35 | a valid date is in a window exactly when its local minute is in the half-open range; an Invalid Date is in none |
| DailySales.InSlotIffAll | src/components/DailySalesTracker.tsx:31-35 | the same holds for all four windows at once |
| DailySales.SlotsPartitionDay | src/components/DailySalesTracker.tsx:22-35 | a date lands in at most one window, and in one exactly when it is between 09:00 and 17:30 |
| DailySales.SlotIgnoresDate | src/components/DailySalesTracker.tsx:31-35 | the same clock time on another day lands in the same window, as there is no date filter |
| DailySales.SlotSales | src/components/DailySalesTracker.tsx:31-35 | a window's sales are exactly the confirmed sales whose clock time falls in it |
| DailySales.SlotSalesConcat | src/components/DailySalesTracker.tsx:31-35 | the window filter distributes over joined lists, so the sales keep list order and duplicates |
| DailySales.OverflowSplit | src/components/DailySalesTracker.tsx:47-49 | a window's sales are its sales up to the target plus its overflow, and the overflow is 0 exactly when the target is not passed |
| DailySales.CalculateOverflow | src/components/DailySalesTracker.tsx:45-54 | each window's overflow is max(0, sales - target), and the total is their sum |
| DailySales.TotalOverflowZero | src/components/DailySalesTracker.tsx:45-54 | the total overflow is 0 exactly when every window's overflow is 0 |
| DailySales.GetExtraGreenBoxes | src/components/DailySalesTracker.tsx:59-65 | a window's extra boxes are the earlier windows' overflow, capped at its target |
| DailySales.ExtraGreenBounds | src/components/DailySalesTracker.tsx:59-65 | the first window gets no extra boxes, and no window gets more than its target |
| DailySales.ClassifyBox | src/components/DailySalesTracker.tsx:91-115 | a box is a sale, a "goal completed" box, an available box or an overflow sale by the four branches, with each branch's content and tooltip |
| DailySales.SlotBoxes | src/components/DailySalesTracker.tsx:76-90 | a window draws max(target, sales) boxes, each classified by the branches |
| DailySales.BoxKinds | src/components/DailySalesTracker.tsx:80-115 | among the drawn boxes the first ones are the sales; next come as many "goal completed" boxes as the extra allows, then available ones; the overflow-sale branch is never taken |
| DailySales.RenderBoard | src/components/DailySalesTracker.tsx:30-118 | the board draws every window's boxes with its sales and its capped extra |
| ActivityGrid.DaysCalls | src/components/CallActivityGrid.tsx:31-33 | a day's calls are exactly the records dated that local day |
| ActivityGrid.DaysCallsConcat | src/components/CallActivityGrid.tsx:31-33 | the day filter distributes over joined lists, so the cell counts every duplicate, in list order |
| ActivityGrid.IntensityProperties | src/components/CallActivityGrid.tsx:38-43 | the shade lies in 0..4, is 0 exactly for an empty day, and grows with the count |
| ActivityGrid.GenerateGridData | src/components/CallActivityGrid.tsx:20-54 | the grid has 84 cells; cell i is day today - 84 + i, with that day's count, outcomes and shade |
| ActivityGrid.GridWindow | src/components/CallActivityGrid.tsx:21-36 | every cell lies in the 84 days before today, so today's calls never show; a cell's outcome list is as long as its count |
| ActivityGrid.GridCountsAddUp | src/components/CallActivityGrid.tsx:27-36 | the cells of a window count each record dated inside it once, and never more than the list holds |
| ActivityGrid.SuccessCount | src/components/CallActivityGrid.tsx:74-76 | the successes never outnumber the outcomes |
| ActivityGrid.SuccessCountIsYesCount | src/components/CallActivityGrid.tsx:74-76 | the tooltip's successes are the calls the statistics call affirmative |
| ActivityGrid.TooltipFacts | src/components/CallActivityGrid.tsx:69-78 | a tooltip ends in "No calls" exactly when the day had none, and it never reports more successes than calls |
| ActivityGrid.ChunkWeeks | src/components/CallActivityGrid.tsx:82-85 | the weeks are consecutive slices of seven whose concatenation is the grid |
| ActivityGrid.TwelveWeeks | src/components/CallActivityGrid.tsx:82-85 | the 84-cell grid makes twelve full weeks |
| TrackerView.TableEntry | src/components/CallTracker.tsx:16-30 | button `i` is the `i`-th outcome, captioned by the translation of its tag, in its colour family |
| TrackerView.OutcomeTableExact | src/components/CallTracker.tsx:16-30 | the button table lists every outcome once, in declaration order, captioned by the translation of its tag |
| TrackerView.ColorOfTable | src/components/CallTracker.tsx:16-30 | every button has the colour family of its outcome |
| TrackerView.FindConfig | src/components/CallTracker.tsx:92 | the button found is the first whose tag equals the outcome, and none is found only when no tag does |
| TrackerView.OutcomeConfigLookup | src/components/CallTracker.tsx:91-93 | a tagged record finds its own button; only a cast outcome falls back to the first button |
| TrackerView.NotesArg | src/components/CallTracker.tsx:43 | trimmed notes are passed; notes that are all white space become undefined |
| TrackerView.NotesText | src/components/CallTracker.tsx:76 | absent notes read as the empty text |
| TrackerView.EditKeepsNotes | src/components/CallTracker.tsx:336-339 | opening the editor on stored notes and saving unchanged stores the same notes |
| TrackerView.ExportNoneIff | src/components/CallTracker.tsx:62-68 | the export is skipped exactly when no record is dated today |
| TrackerView.ExportLines | src/components/CallTracker.tsx:70-78 | the export's lines are the header `Time,Outcome,Notes` and then one row per call of today, in list order |
| TrackerView.ExportRowFields | src/components/CallTracker.tsx:73-77 | a comma-free row splits into time, caption and the notes in double quotes |
| TrackerView.CommaInNotesAddsField | src/components/CallTracker.tsx:76 | nothing is escaped: notes holding a comma give their row an extra field |
| TrackerView.TrackerScreen.constructor | src/components/CallTracker.tsx:35-37 | the screen starts with empty notes and no edit |
| TrackerView.TrackerScreen.HandleAddCall | src/components/CallTracker.tsx:41-46 | the call is logged with the trimmed notes, and the notes box is cleared |
| TrackerView.TrackerScreen.BeginEdit | src/components/CallTracker.tsx:336-339 | the editor remembers the record and is prefilled with its notes |
| TrackerView.TrackerScreen.HandleUpdateCall | src/components/CallTracker.tsx:48-52 | the record is rewritten with the trimmed edit notes, and the editor is closed |
| TrackerView.TrackerScreen.UpdateAndClose | src/components/CallTracker.tsx:48-52 | the edit is forwarded to the hook, and the editor is closed |

## Left out

- Clock.LocalDay: time zones are a fixed offset. There are no daylight-saving changes, so each local day is exactly 24 hours.
- All CSV rows of one import share one `now`. The source reads the clock once per row, which gives the same day unless the import runs across midnight.
- Random id suffixes are a parameter. Their uniqueness is not modelled.
- `JSON.parse`, `JSON.stringify` and the ISO date text are not modelled as text. The store holds values, and `Garbled` stands for text that does not parse.
- Serialising an Invalid Date, which throws, is modelled. The exact ISO date format is not.
- JsonImport.ItemId: an id that is truthy but not a string gets a fresh id. The source would store that value as it is.
- JsonImport.ItemNotes: notes that are not a string become absent. The source would store that value as it is.
- `new Date(value)` on a JSON value is the parameter `dateOf`. Date ranges and the parsing of date text are out.
- Text.ToLower: folds ASCII letters only. Unicode case mapping is not modelled, which affects only captions with non-ASCII letters.
- Exporting and then importing does not round-trip. The lemmas above show where it fails, and no round trip is claimed.
- Stats.CountOutcomes: a cast value whose text names no tag makes the source add a key outside the thirteen, holding NaN; the table models only the thirteen counters.
- Stats.KeyTag: that the text of a number, a boolean, `null` or an object is never a tag is argued from the JavaScript string conversion, which is not modelled as text.
- Tracker.CallTracker.AddCall: one clock reading `now` serves as both the id's number and the timestamp. The source reads `Date.now()` and `new Date()` separately, which can differ by a millisecond.
- CsvImport.RowTime: an hour or minute text too long for exact floating point, or one that puts the date outside the range `Date` allows, gives an Invalid Date in the source. The model reads any digit run exactly and builds the time from it.
- Stats.Percent: ratios are exact reals. Floating point is out, as are `Math.round`, `toFixed` and the pie-chart data.
- Translations and the language switch are the parameter `t`. `toLocaleTimeString`, `toLocaleDateString` and `formatTime` are parameters or are left out.
- The download plumbing is left out: Blob, object URL, anchor click and the file name.
- The screens' rendering markup is left out: cards, badges, legends, month and weekday labels. Colour classes are kept only for the outcome buttons.
- React scheduling is simplified:
  - state updates are applied at once;
  - the persist effect runs at the end of each operation;
  - the first effect run, which has no session, does nothing (modelled).
- Several hook instances or browser tabs writing the same storage are not modelled. The activity grid's own hook instance is modelled as a call list passed in.
- The `getDayKey` helper is never called, so it is not part of this model. `src/contexts/LanguageContext.tsx` and `src/pages/Index.tsx` are not part of this model.
- `console.log` output is left out.
