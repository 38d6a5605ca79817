# LEADS core in Dafny

A model of the lead-management core of the LEADS CRM, with proofs of its
properties. LEADS keeps sales leads (name, company, contact channels,
pipeline stage, priority, tags, a deal, interactions, a change history). The
model covers five parts:

- **CSV** (`src/lib/csv.ts`, module `Csv`, file `csv.dfy`).
  - `parseCsv` is a character scanner; here it is the `Step`/`Scan`/`Lex`
    functions and the imperative `ParseCsv` method.
  - `toCsv` is `ToCsv`, together with the round trip `parseCsv(toCsv(rows))`.
- **Change history** (`src/lib/changes.ts`, module `Changes`).
  - `diffLeadChanges` is `Diff`, over the fifteen `TRACK_FIELDS`. Stages are
    compared by id, tags by their sorted names, and every other field by its
    text. The label is derived from the field name.
  - `buildLeadSnapshot` is `BuildLeadSnapshot`.
- **Duplicate detection** (`GET /api/leads/duplicates`, module `Duplicates`).
  - `groupBy` is the `FileLeads`/`GroupBy` methods, specified by the
    `Grouped` function.
  - The five key kinds make the report, `Report`.
- **Lead merge** (`POST /api/leads/merge`, module `Merge`).
  - The `others.forEach` reconciliation loop (`Reconcile`) is specified by
    the fold `FoldAll`. It covers `fill`, the stage, the highest priority
    and the latest dates.
  - The tag union and the target deal are modelled.
  - The transaction is modelled on the database object (`MergeLeads`).
- **CSV import** (`POST /api/leads/import`, module `LeadImport`).
  - Records are read with the running duplicate sets (`ReadRecords`),
    specified by the fold `Run`.
  - Each lead built from a record is `NewLead`.
  - The endpoint with its three error answers is `ImportLeads`.

Supporting modules:

- `Wrappers`: `Option` and `Result`.
- `Text`: JavaScript's `trim`, `toLowerCase` and `toUpperCase` on ASCII.
- `Ordering`: the string order of `Array.prototype.sort`.
- `Domain`: the lead row, the priorities `ALTA`/`MEDIA`/`BAJA` and the
  store.
- `Database`: the Prisma tables the endpoints touch. It is a class `Db`
  whose fields are the tables and whose methods are the Prisma calls used.

## Model

| member | source | states |
|---|---|---|
| Domain.PriorityNamed | src/lib/constants.ts:1 | A name is mapped to the priority with exactly that name, or to nothing when no priority has it |
| Domain.PriorityScale | src/app/api/leads/merge/route.ts:6 | Every priority is one of the three; names and ranks tell priorities apart; BAJA ranks below MEDIA, which ranks below ALTA; a name maps back to its priority |
| Domain.FindLead | src/app/api/leads/merge/route.ts:18-21 | `findUnique` by id finds a stored lead with that id, or reports that none has it |
| Text.TrimShape | src/app/api/leads/duplicates/route.ts:4 | `trim` leaves no whitespace at either end, and gives "" exactly when the input is all whitespace |
| Text.TrimFixesTrimmed | src/lib/csv.ts:55 | `trim` leaves a string unchanged exactly when it has no whitespace at either end, so trimming twice is trimming once |
| Ordering.SortCorrect | src/lib/changes.ts:60-61 | The sort of tag names gives a sorted permutation of its input |
| Ordering.SortedUnique | src/lib/changes.ts:60-61 | Two sorted permutations of the same multiset are equal |
| Ordering.SortIgnoresOrder | src/lib/changes.ts:60-61 | Sorting two sequences with the same multiset of names gives the same sequence |
| Csv.BuildRecord | src/lib/csv.ts:59-65 | The record built for a row is `RecordOf(headers, row)`. Each trimmed header maps to the trimmed cell at its index, or to "" past the end of the row |
| Csv.ParseCsv | src/lib/csv.ts:3-66 | The scanning loop with its quote, separator and line-break branches, followed by the header and blank-row handling, returns exactly `Parse(text)` |
| Csv.SeparatorsEndCell | src/lib/csv.ts:35-38 | Outside quotes, `,` and `;` both end the current cell |
| Csv.LiteralInQuotes | src/lib/csv.ts:40-47 | Inside quotes, any character other than `"` (separators and line breaks included) is added to the cell |
| Csv.RowBreaksAgree | src/lib/csv.ts:40-45 | Outside quotes, CRLF, a lone CR and LF all end the cell and the line in the same way |
| Csv.DoubledQuoteInQuotes | src/lib/csv.ts:25-28 | Inside quotes, `""` adds one quote character and stays in quotes |
| Csv.LoneQuoteToggles | src/lib/csv.ts:29-31 | A quote that is not a doubled quote inside quotes switches the quoted state and adds nothing |
| Csv.QuotesNeedPairs | src/lib/csv.ts:25-33 | Text with no doubled quote never adds a quote character to any cell |
| Csv.LexNeverEmpty | src/lib/csv.ts:50-53 | The final push always leaves at least one line; empty text parses to no records |
| Csv.RecordKeys | src/lib/csv.ts:55-64 | A record has exactly the trimmed headers as keys, without repeats; with distinct headers the keys are the headers in order |
| Csv.RecordValues | src/lib/csv.ts:61-63 | For the last header of a given name, the value is the trimmed cell at that index, or "" when the row is shorter |
| Csv.RecordsCount | src/lib/csv.ts:56-58 | There are at most as many records as data lines |
| Csv.RecordsFrom | src/lib/csv.ts:56-65 | Every record comes from a data line with a non-blank cell |
| Csv.RecordsCover | src/lib/csv.ts:58-65 | Every data line with a non-blank cell yields its record |
| Csv.ParseShape | src/lib/csv.ts:53-65 | There are fewer records than scanned lines, and every record has exactly the first line's trimmed cells as keys |
| Csv.ScanCell | src/lib/csv.ts:71-76 | Scanning an escaped value outside quotes adds exactly that value to the current cell, when it has no surrounding whitespace and, if unquoted, no `;` or CR |
| Csv.WrittenEncoded | src/lib/csv.ts:68-89 | `toCsv` writes the header line, then one line per row of each header's escaped value (`null` shown as ""), joined by LF |
| Csv.LexWritten | src/lib/csv.ts:3-89 | Scanning what `toCsv` wrote for exportable rows gives back the unescaped header line and value lines |
| Csv.RoundTrip | src/lib/csv.ts:3-89 | For exportable rows, `parseCsv(toCsv(rows))` gives one record per row, holding that row's values (as strings) under the first row's keys |
| Csv.RoundTripSameKeys | src/lib/csv.ts:3-89 | When every row has the first row's keys in the same order, the round trip gives every row back as its string form |
| Changes.TagNameList | src/lib/changes.ts:58-60 | The names of the tags in order; a missing tag list gives none |
| Changes.SpaceConcat | src/lib/changes.ts:77 | Inserting a space before each capital letter distributes over concatenation |
| Changes.WordLabel | src/lib/changes.ts:76-78 | A lower-case field name is labelled by capitalising its first letter |
| Changes.TwoWordLabel | src/lib/changes.ts:76-78 | A camel-case name of two words becomes the first word with its initial capitalised, a space, then the second word as written (so `ultimoContacto` is labelled "Ultimo Contacto") |
| Changes.Picked | src/lib/changes.ts:40 | The indices of the fields that yield an entry are valid and increasing |
| Changes.PickedChanged | src/lib/changes.ts:44-86 | Every picked field changed between the two snapshots |
| Changes.ChangedPicked | src/lib/changes.ts:44-86 | Every field that changed between the two snapshots is picked |
| Changes.EntryLength | src/lib/changes.ts:40-87 | Each field gives at most one entry, and none exactly when it did not change |
| Changes.DiffOverIndexed | src/lib/changes.ts:39-88 | The history holds one entry per changed field, in field order. Each entry has the field's label and its shown values before and after, which differ except for the stage |
| Changes.DiffOverEmpty | src/lib/changes.ts:39-88 | There are at most as many entries as fields, and there are none exactly when no field changed |
| Changes.DiffOverSelf | src/lib/changes.ts:39-88 | Comparing a snapshot with itself records nothing |
| Changes.DiffOverSwap | src/lib/changes.ts:39-88 | Swapping the two snapshots gives the same entries with before and after exchanged |
| Changes.DiffOverAgree | src/lib/changes.ts:39-88 | Snapshot pairs on which every field gives the same entry have the same history |
| Changes.TagsIgnoreOrder | src/lib/changes.ts:57-70 | Tags with the same multiset of names, in any order, record nothing |
| Changes.DiffSelf | src/lib/changes.ts:39-88 | `diffLeadChanges(s, s)` over the tracked fields is empty |
| Changes.StageById | src/lib/changes.ts:44-55 | A stage that keeps its id records nothing even when renamed; a different id records an `Etapa` entry from the old name to the new one |
| Changes.OrNull | src/lib/changes.ts:93-106 | `x ?? null` is never undefined and keeps a present value |
| Changes.BuildLeadSnapshot | src/lib/changes.ts:90-108 | The snapshot has no undefined field, keeps the name, the priority's name and present tags |
| Changes.BuildKeepsShown | src/lib/changes.ts:90-108 | Every field shows the same text in the built snapshot as in the lead itself |
| Changes.BuildKeepsDiff | src/lib/changes.ts:90-108 | Diffing built snapshots gives the same history as diffing the leads directly |
| Duplicates.DropTrailingBar | src/app/api/leads/duplicates/route.ts:42 | Exactly one bar is removed when the string ends in a bar, and the string is left as it is otherwise |
| Duplicates.NameKeyShape | src/app/api/leads/duplicates/route.ts:41-43 | The name key is the name, a bar and the company when the company is set and does not end in a bar, the name, a bar and the company without its final bar when the company ends in a bar (so companies ending in a bar and the same without it share a key), and the name alone when the company is blank; it is empty exactly when both are blank |
| Duplicates.KeysByType | src/app/api/leads/duplicates/route.ts:37-43 | The getter passed for each kind computes that kind's normalised key of every lead |
| Duplicates.Positions | src/app/api/leads/duplicates/route.ts:25-29 | The positions of a key are increasing indices that all hold that key |
| Duplicates.FirstKeys | src/app/api/leads/duplicates/route.ts:24-30 | The map's keys in insertion order are distinct and non-empty |
| Duplicates.FileLeads | src/app/api/leads/duplicates/route.ts:24-29 | The filing loop leaves the map's keys in first-seen order, and under each key the leads with that key in order |
| Duplicates.GroupBy | src/app/api/leads/duplicates/route.ts:23-35 | `groupBy` emits exactly `Grouped(leads, t)` |
| Duplicates.FindDuplicates | src/app/api/leads/duplicates/route.ts:37-45 | The five `groupBy` calls emit exactly `Report(leads)` |
| Duplicates.MembersShape | src/app/api/leads/duplicates/route.ts:25-29 | A key's members are exactly the leads with that key, and they stay oldest first |
| Duplicates.TwoMembers | src/app/api/leads/duplicates/route.ts:31 | Two leads with the same key make at least two members |
| Duplicates.GroupedShape | src/app/api/leads/duplicates/route.ts:30-34 | Every group has the given type, a non-empty value, and at least two members, which are exactly the leads with that value |
| Duplicates.GroupedDistinct | src/app/api/leads/duplicates/route.ts:30-34 | Within one type, no two groups share a value |
| Duplicates.GroupedComplete | src/app/api/leads/duplicates/route.ts:25-34 | Two leads sharing a non-empty key are reported in a group under that key |
| Duplicates.EmptyKeyUngrouped | src/app/api/leads/duplicates/route.ts:27 | A lead with an empty key is in no group of that type |
| Duplicates.ReportInBlocks | src/app/api/leads/duplicates/route.ts:37-43 | The report comes in blocks by type: Telefono, WhatsApp, Instagram, Web, then Nombre + Empresa |
| Duplicates.ReportSound | src/app/api/leads/duplicates/route.ts:37-45 | Every group of the report is a sound group of its type |
| Merge.BlankMeansTrimEmpty | src/app/api/leads/merge/route.ts:4 | A value is blank for `fill` exactly when it is missing or `trim` empties it |
| Merge.Set | src/app/api/leads/merge/route.ts:39 | Assigning a column changes that column and nothing else |
| Merge.ChooseTwice | src/app/api/leads/merge/route.ts:37-41 | Filling twice from the same value is the same as filling once |
| Merge.FillEachColumn | src/app/api/leads/merge/route.ts:47-55 | Each listed column is filled from the other lead if it is blank; every other column is left as it was |
| Merge.FillColumns | src/app/api/leads/merge/route.ts:47-55 | The nine `fill` calls fill the columns in the listed order |
| Merge.AbsorbLead | src/app/api/leads/merge/route.ts:46-71 | One pass of the callback updates the merged lead and both running dates as one turn of the fold |
| Merge.Reconcile | src/app/api/leads/merge/route.ts:35-71 | The loop over the others ends in the state `FoldAll(primary, others)` |
| Merge.AbsorbColumn | src/app/api/leads/merge/route.ts:37-41 | A turn fills a blank column with the other's value and leaves a filled one as it is |
| Merge.AbsorbStage | src/app/api/leads/merge/route.ts:56 | A turn takes the other's stage only when the merged stage is not set and the other's is |
| Merge.AbsorbPriority | src/app/api/leads/merge/route.ts:58-60 | A turn takes the other's priority only when it ranks strictly higher |
| Merge.AbsorbDate | src/app/api/leads/merge/route.ts:62-70 | A turn moves a running date to the other's date only when that date is later |
| Merge.AbsorbIdentity | src/app/api/leads/merge/route.ts:35 | A turn keeps the merged lead's id, name and creation time |
| Merge.FoldIdentity | src/app/api/leads/merge/route.ts:35 | The merged lead keeps the primary's id, name and creation time |
| Merge.FilledStays | src/app/api/leads/merge/route.ts:37-41 | Once a column is filled, later turns never change it |
| Merge.BlankSoFar | src/app/api/leads/merge/route.ts:37-41 | While a column and every other lead so far is blank, the column holds the raw value of the last other lead |
| Merge.KeepFilled | src/app/api/leads/merge/route.ts:37-41 | A filled column of the primary is kept |
| Merge.FirstFilled | src/app/api/leads/merge/route.ts:37-55 | A blank column of the primary ends up with the first non-blank value among the others, in order |
| Merge.AllBlank | src/app/api/leads/merge/route.ts:37-55 | When every lead leaves a column blank, it ends up with the last other lead's raw value |
| Merge.StageStays | src/app/api/leads/merge/route.ts:56 | Once a stage is set, later turns keep it |
| Merge.NoStageSoFar | src/app/api/leads/merge/route.ts:56 | While no lead so far has a stage, the primary's unset stage stays |
| Merge.StageChoice | src/app/api/leads/merge/route.ts:56 | The stage is the primary's if set, else that of the first other lead that has one, else the primary's |
| Merge.FoldPriority | src/app/api/leads/merge/route.ts:58-60 | The loop's priority is the running maximum `TopPriority` |
| Merge.PriorityMax | src/app/api/leads/merge/route.ts:6-60 | The merged priority ranks at least as high as every lead's priority, and is one of them |
| Merge.FoldDate | src/app/api/leads/merge/route.ts:43-70 | The loop's running dates are the running latest `LatestOf` |
| Merge.LatestMissing | src/app/api/leads/merge/route.ts:43-70 | A date is missing after the merge exactly when every lead lacks it |
| Merge.LatestIsMax | src/app/api/leads/merge/route.ts:43-70 | Each merged date is no earlier than any lead's, and is one of them |
| Merge.OthersTags | src/app/api/leads/merge/route.ts:75 | A tag belongs to the others' tags exactly when some other lead is linked to it |
| Merge.MergedTags | src/app/api/leads/merge/route.ts:73-76 | `tagIds` holds a tag exactly when the primary or some other lead is linked to it |
| Merge.TargetDeal | src/app/api/leads/merge/route.ts:78 | The target deal is the primary's, else the first deal of the others, else none, which happens only when both are missing |
| Merge.MergedRemoves | src/app/api/leads/merge/route.ts:131-133 | After the merge, no lead, tag link or deal of a merged id remains |
| Merge.MergedRepoints | src/app/api/leads/merge/route.ts:123-130 | No interaction or change is lost: each keeps its place, id and field, and those of a merged lead now belong to the primary |
| Merge.MergedKeepsLeads | src/app/api/leads/merge/route.ts:80-134 | Leads outside the merge are untouched |
| Merge.MergedKeepsLinks | src/app/api/leads/merge/route.ts:80-134 | Tag links of leads outside the merge are untouched |
| Merge.MergedKeepsDeals | src/app/api/leads/merge/route.ts:80-134 | Deals of leads outside the merge are untouched |
| Merge.MergedPrimary | src/app/api/leads/merge/route.ts:81-96 | A primary outside the merged ids is stored as the merged row, and nothing else has its id |
| Merge.MergedPrimaryTags | src/app/api/leads/merge/route.ts:97-100 | The primary's tags become the union of everyone's tags |
| Merge.MergedPrimaryDeal | src/app/api/leads/merge/route.ts:101-120 | The primary ends up with a deal carrying exactly the target deal's terms, and with no deal when there is no target |
| Merge.MergedValid | src/app/api/leads/merge/route.ts:80-134 | A merge keeps lead ids unique and each lead with at most one deal |
| Merge.MergeLeads | src/app/api/leads/merge/route.ts:8-137 | An invalid body answers 400 and a missing primary 404, both with nothing changed; otherwise the answer is `ok` and the store becomes `Merged(...)` |
| Database.Filter | src/app/api/leads/merge/route.ts:131-133 | `deleteMany` keeps exactly the rows that do not match, and never adds one |
| Database.FilterDistinct | src/app/api/leads/merge/route.ts:131-133 | Deleting rows keeps a unique key unique |
| Database.UpdateRow | src/app/api/leads/merge/route.ts:81-82 | `lead.update` replaces the row with the given id, keeps every other row and the order |
| Database.RepointInteractions | src/app/api/leads/merge/route.ts:123-126 | `updateMany` moves interactions of the given leads to the target, keeping their ids and order |
| Database.RepointChanges | src/app/api/leads/merge/route.ts:127-130 | `updateMany` moves change records of the given leads to the target, keeping their ids, fields and order |
| Database.DealOf | src/app/api/leads/merge/route.ts:20 | A lead's deal is a stored deal of that lead, or there is none |
| Database.UpsertDeal | src/app/api/leads/merge/route.ts:101-119 | The upsert updates the terms of the lead's deal in place, or appends a deal with the given id `newId` when it has none |
| Database.Db.constructor | src/app/api/leads/merge/route.ts:80 | The database starts in the given state |
| Database.Db.UpdateLead | src/app/api/leads/merge/route.ts:81-96 | Only the leads table changes, by `UpdateRow` |
| Database.Db.ReplaceTags | src/app/api/leads/merge/route.ts:97-100 | The lead's tag links become exactly the given tags; the other links stay |
| Database.Db.Upsert | src/app/api/leads/merge/route.ts:101-120 | Only the deals table changes, by `UpsertDeal` |
| Database.Db.Repoint | src/app/api/leads/merge/route.ts:123-130 | Only interactions and changes are repointed |
| Database.Db.DeleteLeads | src/app/api/leads/merge/route.ts:131-133 | Tag links, deals and leads of the given ids are removed; nothing else changes |
| Database.Db.CreateLeads | src/app/api/leads/import/route.ts:155 | `createMany` appends the new leads and changes nothing else |
| LeadImport.GetValue | src/app/api/leads/import/route.ts:42-46 | An unmapped or empty-mapped field reads as ""; a non-empty value is the record's value under the mapped header |
| LeadImport.ToPrioridad | src/app/api/leads/import/route.ts:17-23 | A priority is found only for non-empty text whose trimmed upper case is its name; otherwise none |
| LeadImport.OrNull | src/app/api/leads/import/route.ts:131-141 | An empty value is stored as null, and any other value as itself |
| LeadImport.ReadDate | src/app/api/leads/import/route.ts:10-15 | An empty value gives no date; any other is given to the date parser |
| LeadImport.FindStage | src/app/api/leads/import/route.ts:112-119 | `stages.find` returns the first stage whose name or key matches the normalised `estado`, or none when none matches |
| LeadImport.ResolveStage | src/app/api/leads/import/route.ts:111-138 | The stage is the first match, else the first stage, else none; none happens only when there are no stages |
| LeadImport.BlankEstado | src/app/api/leads/import/route.ts:113-114 | A blank `estado` matches nothing and gets the first stage |
| LeadImport.AddKeys | src/app/api/leads/import/route.ts:123-127 | Each running set gains the record's key of its kind, when that key is non-empty |
| LeadImport.DuplicatedMeans | src/app/api/leads/import/route.ts:99-104 | A record is duplicated exactly when some non-empty key of it is already in its set |
| LeadImport.KeysList | src/app/api/leads/import/route.ts:93-97 | One key tuple per record, in order |
| LeadImport.NormalizeOrNull | src/app/api/leads/import/route.ts:131-137 | Storing "" as null does not change its normalised key |
| LeadImport.NewLeadKeys | src/app/api/leads/import/route.ts:93-144 | The inserted lead has the same keys as the record it came from |
| LeadImport.NewLeadShape | src/app/api/leads/import/route.ts:129-144 | The inserted lead carries the record's name, the fresh id of its position, and the record's keys |
| LeadImport.Leads | src/app/api/leads/import/route.ts:129-146 | One lead per accepted record, built by `NewLead` at its position |
| LeadImport.RunCount | src/app/api/leads/import/route.ts:82-109 | Every record is either accepted, skipped as a duplicate, or nameless |
| LeadImport.RunAccepted | src/app/api/leads/import/route.ts:84-85 | Every accepted record is a record of the input that has a name |
| LeadImport.RunKnows | src/app/api/leads/import/route.ts:62-127 | After the pass, each running set holds the existing keys plus the non-empty keys of the accepted records |
| LeadImport.SkipMeans | src/app/api/leads/import/route.ts:84-109 | A nameless record changes nothing; a named one is skipped exactly when one of its non-empty keys is already known |
| LeadImport.AcceptedFresh | src/app/api/leads/import/route.ts:99-127 | Each accepted record's non-empty key was new: no existing lead and no earlier accepted record had it |
| LeadImport.AcceptedDisjoint | src/app/api/leads/import/route.ts:99-127 | No two accepted records share a non-empty key of the same kind |
| LeadImport.AcceptedAvoidExisting | src/app/api/leads/import/route.ts:62-104 | No accepted record shares a non-empty key with an existing lead, except the name key made of a lone bar, which the existing set leaves out |
| LeadImport.ImportedLeads | src/app/api/leads/import/route.ts:82-146 | The inserted leads are named, carry the fresh ids in order, and do not share a non-empty key of the same kind |
| LeadImport.ReadRecords | src/app/api/leads/import/route.ts:80-146 | The pass over the records returns the leads built from the accepted records and the number skipped as duplicates |
| LeadImport.ImportLeads | src/app/api/leads/import/route.ts:25-158 | Missing text gives "CSV requerido", no records "CSV sin datos" and no accepted record "No se encontro ningun lead valido", all with nothing in the modelled tables changed; otherwise the accepted leads are appended and the count and skipped number are returned |

## Left out

- I/O, the HTTP layer and JSON parsing are not modelled. The request body is
  given as `Option` values and the response as a `Result`.
- Prisma is not modelled. The database is the `Database.Db` object over the
  tables the endpoints read and write. `findMany` returns rows in table
  order; the duplicates endpoint's `orderBy: creadoEn` is the `OldestFirst`
  hypothesis under which `Duplicates.MembersShape` keeps groups oldest first.
- The merge transaction's atomicity and concurrency are not modelled. The
  transaction is the sequence of its steps on one object.
- `new Date(value)` is a `parseDate` parameter of the import, and dates are
  integers.
- Ids and creation times come from the database, so they are the `freshId`
  and `now` parameters and the `newDealId` of a created deal.
- `ensureDefaultStages` (`src/lib/stages.ts`) is not part of this model. The
  stages it leaves are an input of the import. It runs before the "No se
  encontro ningun lead valido" answer and may insert the default stages, a
  change outside the modelled tables.
- `Text.ToLower`, `Text.ToUpper`: map only the ASCII letters. JavaScript's
  full Unicode case mapping is not modelled.
- `Ordering.Sort` compares characters by code; this matches
  `Array.prototype.sort` on strings of the Basic Multilingual Plane only.
- `Object.keys` lists integer-like keys first in JavaScript. The model takes
  a record's keys in insertion order. A `__proto__` header never becomes a
  key in JavaScript (the assignment sets the prototype slot and is ignored),
  but the model keeps it as a key. `getValue`'s `row[header]` can return an
  inherited property such as `toString` for a header the record lacks; the
  model reads "" there.
- `Csv.ToCsv`: `toCsv`'s type admits numbers; no caller in this source
  passes one, and the model writes only text and null.
- `Csv.RoundTrip`: holds only for exportable rows. `escape` does not quote a
  value containing `;` or CR, which `parseCsv` reads as a separator, and
  `parseCsv` trims what `toCsv` keeps. So the round trip is stated for
  values with no surrounding whitespace and, if unquoted, no `;` or CR; for
  distinct plain headers; and for rows that are not blank.
- `Merge.MergeLeads`: when the primary's id is among `mergeIds`, the
  primary is deleted at the end of the transaction. This is modelled as
  written, and `Merge.MergedPrimary` is stated only for a primary outside
  the merged ids.
- `priorityRank[...] ?? 0` cannot fall back for the three priorities the
  type allows, so the fallback is not modelled.
- The import excludes the name key `|` only from the existing leads' set.
  A record whose name trims to nothing would still add the lone-bar key;
  `parseCsv` trims every cell, so such a record has no name and is never
  accepted. The check is modelled as written.
- The other routes, the React components and `src/lib/types.ts` beyond the
  fields used are not part of this model.
