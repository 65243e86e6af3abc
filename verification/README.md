# HyperLEDA backend: a model of its layers and its search

The backend stores measurements of galaxies in three layers. Layer 0 keeps records, each of which may carry a PGC
(the number of an object). Layer 1 keeps the measurements of a record, one table per catalog. Layer 2 keeps, for each
catalog and PGC, one row aggregated from the layer-1 rows whose record carries that PGC, and is what searches read.
Layer 2 is a cache: writers mark the PGCs they change in `common.pgc.modification_time`, and an import reads the
PGCs marked since the catalog's watermark, in pages, and refreshes only those rows.

The project models five parts of that system and proves what they promise.

* **The layer-2 cache** (`Storage`, `Layer1`, `Aggregation`, `Layers`, `Layer2`, `Import`, `Writers`, `Freshness`,
  `InterleavedImport`, `Chronicles`, `StoredValues`, `ProgressCounters`, `ImportTask`, `OrphanCleanup`; failing histories
  in `Histories`, `LateWrites` and `Reclassification`).
  `Storage.Database` is the database, changed in place by methods that follow the repositories; each is proved against
  a function on snapshots. Over every run of writers and imports from the empty database, each layer-2 row is either
  what its layer-1 rows give or marked as changed, so an incremental import with cleanup ends in the from-scratch
  result, whatever the batch size and the history. `InterleavedImport` takes the import apart into its statements,
  with writers between any two of them, and says which writes it survives; in `Chronicles` such imports, and
  transactions during which others commit, make up whole histories.
* **The identity of objects** (`Records`, `Assignment`, `AssignmentSplit`, `AheadCandidates`, `Merges`). Crossmatch
  results, assignment of PGCs with freshly minted ids, and merges, on the same state; they are the writers the cache has
  to survive.
* **The search compiler** (`Filters`, `Joins`, `QueryPlan`, `Rendering`, `Binding`, `FilterText`, `BatchQuery`,
  `FromClause`, `SearchParameters`, `SearchResults`, `CatalogQuery`, `AnswerRows`, `AnswerPages`, `Columns`). A filter
  tree becomes a query text with positional parameters. Filters have their three-valued meaning, joins their meaning as
  bags of rows, the WHERE clause is parsed back with AND binding tighter than OR, the FROM clause with joins grouping
  from the left, and the text is bound character by character. The rows are followed to the page that is shown and to
  the objects read back out of it.
* **The query as the database reads it** (`Sql`, `SqlMeaning`, `LeafTexts`, `QueryTexts`, `WhereTexts`, `FromTexts`,
  `SelectTexts`, `ValueTexts`, `WholeQuery`, `NamedTables`). From the characters of the text, with every value in
  place, up: a lexer, a grammar of expressions and conditions, and their evaluation on a row. `WholeQuery.QueryMeans`
  says of every query what each of its clauses is read as: the values of the searches under the names the rest uses,
  the columns and labels, the joins of the plan, the condition that the searches stand for, the order, and the page.
* **`ErrorGroup`**, as a protocol of interleaved steps.

`ConeSearch` joins the first and the third: right after an import of positions, in any run, a cone search answers with
an object exactly if the weighted mean of its layer-1 positions lies in the cone.

## Conventions

One integer clock ticks with every committed change; a `with_tx` block is one step, at its commit, and an SQL
statement is a set or map operation. The time a block stamps is the one it began at; in `Freshness` it begins when it
commits, in `InterleavedImport` and `Chronicles` at any earlier time. Quantities are reals and layer 2 stores
variances, the squares of its error columns. The database's `levenshtein_less_equal`, `ILIKE`, `ST_DWithin` and
`ST_Distance` are parameters: any functions of their arguments, NULL where an argument is; a position with a NaN in it
counts as NULL. Whatever order the database leaves open is left open: rows of one PGC come in any order, and new
records are listed in any order.

Hypotheses, each of which can be checked before a call: PGC numbers are positive, because the cursor of an import
starts at 0; batch sizes are at least 1; an explicit start date is not later than the watermark; a change of datatype,
by registering records again or by a PATCH of their table, changes the average of no unmarked PGC; a transaction
begins after the watermarks it commits under; beside a running import, writers touch only PGCs beyond the page it has
in hand, and none once a read has come back empty. The last three are proved to be exactly what freshness needs, up to
writes that leave the row right all the same. Measurement errors are not zero where a bound on a mean needs it. Tables
are `layer2.` and a name, and names, keys and labels have none of the characters that would end them.

## What the model shows about the code

* The read of a page, its save, the read that finds nothing, the orphan query, the deletion and the watermark are
  statements of their own, and a writer may come between any two. It loses its mark if it touches a PGC at or behind the
  cursor (`LateWrites.WriteBehindIsLost`), one of the page in hand (`InFlightWriteIsLost`), or any PGC after the read that
  finds nothing (`WriteAfterLastReadIsLost`); an object minted after the last read is always of this kind
  (`InterleavedImport.UnreadIsLost`). Exactly: the import ends in the from-scratch result iff every PGC written too late
  is settled all the same (`ExactIffLateSettled`), so without such writes it always does (`InterleavedImportIsExact`).
* A touch stamps the time its transaction began. If an import ended in between, the mark is older than the watermark and
  counts for nothing, even with no import running at the commit (`LateWrites.LongTransactionIsLost`); it can also replace
  a newer mark. A write keeps a catalog fresh iff it began after its watermark or left every touched row right
  (`Writers.LateWriteFreshIff`, `Chronicles.CommitGoodIff`).
* A PATCH of a table's datatype marks nothing. A reachable state in which it makes a fresh row stale is
  `Reclassification.ReclassifiedIsLost`. It keeps layer 2 fresh iff it changes what may be stored for marked PGCs only
  (`Writers.DatatypeFreshIff`, and `RegisterFreshIff` for records registered again); before an import the same PATCH is
  harmless (`Reclassification.MarkedPatchIsHarmless`). Every group stays as it was iff no averaged row of a record with a
  PGC changes between compilation and not (`Writers.GroupsSameIff`).
* One zero error among the positions of an object that count makes its mean a NaN, whatever the others are
  (`Aggregation.MeanIsNumberIff`), and no cone search finds it (`ConeSearch.ConeSearchIsExact`). Layer 1 allows zero.
* LIMIT and OFFSET cut rows, not objects. The view that a search by name joins has a row for each name, so an object is
  answered once for each name that matches (`AnswerRows.NameSearchCounts`), a page can hold fewer objects than rows
  (`AnswerPages.PageObjectsIff`), and one object can fill it (`NameSearchCrowds`). A search by name has no ORDER BY: unless
  a page shows nothing or everything, its rows are not determined (`UnorderedPageIff`). Pages of a search by position are
  (`OrderedPageFixed`). That only the first row of an object is kept loses nothing (`FirstRowSaysAll`).
* The orphan cleanup of all catalogs deletes each orphan from every catalog, and so a correct row of another catalog that
  no later import restores (`OrphanCleanup.CleanUpLoses`, a reachable state); `CleanUpKeepsFreshIff` says exactly when not.
* A tied vote for a designation or a type is decided by the order the database returns the rows in
  (`Aggregation.TieDecidedByOrder`); layer 2 is determined by layer 1 exactly without ties
  (`Aggregation.SummaryDetermined`).
* A failed assignment does not roll back the id sequence; nothing else changes (`Assignment.AssignAllOrNothing`).
* A crossmatch result may name a PGC that does not exist yet. Whether two requests come to the same as one then depends
  on how they are cut (`AheadCandidates.CutFails`, `CutDiffers`); `AssignmentSplit.CutSucceeds` and
  `AssignmentsComposeIff` say exactly when they do.
* A collided result with a single candidate is stored, and from then on read, as a match to an existing object, because
  the metadata keeps only the list of candidates; it is read as collided iff it has at least two
  (`Records.CollisionReadsBackIff`).
* Registering an empty list of PGCs is a syntax error (`Storage.RegisterPgcs`), and so is a filter for no PGC
  (`Rendering.WhereParses`).
* Without a driving table the emitted text is `search_params CROSS JOIN a FULL JOIN b ...` without parentheses. Joins
  group from the left (`FromClause.FromMeansEmitted`), so the rows of `b` that `a` lacks meet no search and are lost; with
  parentheses none would be (`FromClause.GroupedMeansIntended`). The comment above `driving_table` intends them to match.
  From unique tables nothing is lost iff the first table holds every object the filter accepts
  (`SearchResults.UndrivenFoundIff`); with no filter at all, iff it holds every object any table holds
  (`EverythingFoundIff`). `PositionOnlyIsLost` is an input at which the order of the catalogs decides.
* With several search types, a filter whose top level is an OR escapes the test of its search type from its second
  operand on (`Rendering.TextTrueIff`), so a search can be answered with a row that it rejects
  (`Rendering.StrangerSelected`). With the one search type of `query_catalogs` it does not matter.
* A simple query with both a radius and a name names `layer2.designations` without joining it, as no catalog that can be
  requested has that view for its table: every such query is refused (`SearchResults.RadiusAndNameRefused`).
* `driving_table` does not find every strict filter (`Filters.DrivingTableMissed`), so `None` does not mean that the
  filter can match an object missing from any one table, as its comment says. `Filters.StrictSound` and `StrictComplete`
  say which tables a filter needs; `None` means that it needs none on filters that mix no two of them under an And
  (`DrivingTableNoneIff`).

## Model

| member | source | states |
|---|---|---|
| Storage.TouchPgcs | app/data/repositories/common.py:21-27 | The listed PGCs that exist, and no others, get the current time |
| Storage.MintPgcIds | app/data/repositories/layer0/records.py:247-253 | Consecutive ids from the sequence, or nothing inserted and the sequence moved past the clash when one is taken |
| Storage.RegisterPgcs | app/data/repositories/common.py:73-77 | New ids get the current time, known ids keep theirs; an empty list is refused |
| Storage.GetExistingPgcs | app/data/repositories/common.py:79-87 | Exactly the asked-for ids that exist |
| Records.CandidatesSurvive | app/data/repositories/layer0/records.py:12-17 | Candidates written as metadata read back unchanged, in one of the three forms |
| Records.MetadataFormIsStatus | app/adminapi/domain/crossmatch.py:155-160 | The three metadata forms the SQL tests for are mutually exclusive and coincide with the three statuses |
| Records.CollisionReadsBackIff | app/data/repositories/layer0/records.py:12-17 | A row stored as collided is read as collided exactly if it has two candidates or more; with one it is read as existing |
| Records.RegisterRecordIds | app/data/repositories/layer0/records.py:27-40 | The whole new state, and the two refusals |
| Records.RegisteredExactly | app/data/repositories/layer0/records.py:31-40 | Every named record ends in the table with the PGC it had, a new one without, the others as before; a refusal changes nothing |
| Records.UpdateTableDatatype | app/data/repositories/layer0/tables.py:484-489 | The table has the new datatype and nothing else has changed, no modification time either; an unknown table changes nothing |
| Records.TablesExactly | app/data/repositories/layer0/tables.py:484-489 | Creating a table adds it only if it is new; changing a datatype changes that of the table only if there is one |
| Records.SetCrossmatchResults | app/data/repositories/layer0/records.py:114-129 | All rows are stored in order, or none if a record is unknown |
| Records.CrossmatchReadsBack | app/data/repositories/layer0/common.py:7-14 | The candidates and triage submitted last for a record are those read back |
| Records.AppendCrossmatchRows | app/adminapi/domain/crossmatch.py:81-91 | One row per record id in order, with its own candidates and with the triage status given for it, or the default where none is |
| Records.SubmitCrossmatch | app/adminapi/domain/crossmatch.py:106-142 | Accepted exactly if every record is known; then new, existing and collided rows are stored in this order, and the last entry for a record is what is read back |
| Records.SubmittedReadBack | app/adminapi/domain/crossmatch.py:106-142 | What a request leaves for a record: the candidates of its last entry, and the triage status given with it or the default of its payload |
| Records.Stage | app/data/repositories/layer0/records.py:137-140 | The staging table accepts a list exactly if no id repeats |
| Records.AssignRecordPgcs | app/data/repositories/layer0/records.py:131-217 | The new state and outcome are those of the specification; the sample is up to 100 distinct bad records |
| Records.WriteAssignment | app/data/repositories/layer0/records.py:202-217 | The writing half: mint, update, touch, with its two failures |
| Records.AssignRequest | app/adminapi/domain/crossmatch.py:143-154 | Repeated ids are dropped first, so the staging table never refuses |
| Records.UpsertPgc | app/data/repositories/layer0/records.py:219-245 | Mints for the entries without PGC, writes all, touches old and new PGCs |
| Records.MergeRecords | app/data/repositories/layer0/records.py:255-266 | Records of the sources move, target and sources are touched, the count is exact |
| Records.MergePgcs | app/adminapi/domain/pgc.py:18-34 | Refuses malformed requests and names the first missing PGC, else merges |
| Assignment.AssignAllOrNothing | app/data/repositories/layer0/records.py:142-167 | Anything but success changes at most the id sequence; a request is refused as unresolved exactly if some staged id is, and the reported count is their number |
| Assignment.StagedRows | app/data/repositories/layer0/records.py:179-200 | Staged records without a PGC split into those with one candidate and those with none; nobody is left over |
| Assignment.AssignExactly | app/data/repositories/layer0/records.py:202-217 | The whole state after a success: each record's PGC, the new ids, which PGCs were touched |
| Assignment.AssignedRecords | app/data/repositories/layer0/records.py:179-217 | Each staged record ends with a PGC: its candidate, or an id never seen before; assigned and unnamed records are unchanged |
| Assignment.NewRecordsDistinct | app/data/repositories/layer0/records.py:204-207 | Two new records get different ids |
| Assignment.AssignIdempotent | app/data/repositories/layer0/records.py:179-217 | Repeating a successful request changes nothing: no id minted, nothing touched |
| Assignment.UpsertedExactly | app/data/repositories/layer0/records.py:219-245 | After a direct write each named record has the PGC given with it, or a new one of its own; the others have what they had |
| Assignment.UpsertedTouches | app/data/repositories/layer0/records.py:235-245 | It touches exactly the PGCs that named records had and those they have now |
| AssignmentSplit.CutSucceeds | app/data/repositories/layer0/records.py:131-217 | Two requests both succeed exactly if the joint one does and no record of the first waits for an id that only the second mints |
| AssignmentSplit.AssignmentsComposeIff | app/data/repositories/layer0/records.py:179-217 | When all succeed, two requests reach the state of the joint one up to a bijection on PGCs that fixes all earlier ones, exactly if each candidate that is minted on the way goes to the same record both ways |
| AssignmentSplit.AssignmentsCompose | app/data/repositories/layer0/records.py:179-217 | With no candidate among the next ids, A then B succeeds exactly if A and B together do, and comes to the same |
| AheadCandidates.CutFails | app/data/repositories/layer0/records.py:202-217 | A record matched to the next id is refused alone and accepted together with a new one |
| AheadCandidates.CutDiffers | app/data/repositories/layer0/records.py:202-217 | Cut differently, a record matched to the next id ends with different company |
| Merges.AcceptedIff | app/adminapi/domain/pgc.py:18-25 | A merge happens exactly if there is a source, the target is none, no source repeats and all the PGCs exist; otherwise nothing changes |
| Merges.RefusedFor | app/adminapi/domain/pgc.py:18-25 | A well-formed request that is refused is refused for the first PGC it names, the target before the sources, that does not exist |
| Merges.MergesCompose | app/data/repositories/layer0/records.py:255-266 | Over any sequence of merges each record ends with the composed map applied to its first PGC; records and PGCs are conserved |
| Merges.MergesKeepTogether | app/data/repositories/layer0/records.py:255-266 | Records that shared a PGC still do after any sequence of merges |
| Merges.MergeCountExact | app/data/repositories/layer0/records.py:256-266 | The reported count is the number of records that changed |
| Merges.SourcesVacated | app/data/repositories/layer0/records.py:256-266 | After a merge no record carries a source |
| Merges.TwoMergesAreOne | app/adminapi/domain/pgc.py:18-34 | Two merges onto one target are accepted exactly if one merge of all the sources is, with the same records, the same PGCs touched and counts that add up |
| Layer1.SaveStructuredData | app/data/repositories/layer1.py:45-80 | All rows stored and the records' PGCs touched, or nothing if a record, an object type or a redshift method is unknown or a position out of range |
| Layer1.LastInputWins | app/data/repositories/layer1.py:61-75 | After a save each row holds what the last input for it gave |
| Layer1.SharesKeyIff | app/data/model/redshift.py:27-29 | Two inputs are for one row exactly if the record agrees, and for redshifts the method, for designations the name |
| Layer1.InputsKeptApart | app/data/repositories/layer1.py:61-73 | Inputs for different rows are both there after a save, in rows of their own |
| Layer1.SavedKeys | app/data/repositories/layer1.py:61-73 | A save adds the rows of its inputs and no others |
| Layer1.LastVelocityWins | app/data/repositories/layer1.py:61-73 | A save overwrites the velocity whether it names the error column or not |
| Layer1.OmittedErrorKept | app/data/repositories/layer1.py:61-66 | A save that leaves out the error column keeps the stored errors |
| Layer1.UpsertRowsFrame | app/data/repositories/layer1.py:61-75 | Only rows of the given records change, and none disappears |
| Layer1.PageEligible | app/data/repositories/layer1.py:95-103 | A page is increasing, holds only PGCs changed since, beyond the cursor and with a row, and has as many as there are, up to the limit |
| Layer1.RowsOfPgc | app/data/repositories/layer1.py:91-105 | All layer-1 rows of a PGC, each once |
| Layer1.GetNewRecords | app/data/repositories/layer1.py:82-105 | For the PGCs of the page all their rows, ordered by PGC, and nothing else |
| Layer1.BatchesJoin | app/data/repositories/layer1.py:91-105 | Consecutive answers are together one answer for both pages; no PGC is split |
| Aggregation.MaskIsPerPgc | app/tasks/layer2_common.py:28-33 | The mask over the whole table is the mask of each PGC's rows on their own |
| Aggregation.PerPgcRule | app/tasks/layer2_common.py:28-33 | Compilations of a PGC are dropped exactly if it has a row that is not one |
| Aggregation.MaskKeepsEveryPgc | app/tasks/layer2_common.py:28-33 | No PGC loses all its rows to the mask |
| Aggregation.SumsIgnoreOrder | app/tasks/layer2_import_icrs.py:17-23 | The weighted sums, and so the mean, ignore the order of the rows |
| Aggregation.MeanBounds | app/tasks/layer2_import_icrs.py:17-31 | The mean lies between any bounds on the values and is at least as certain as every contributor |
| Aggregation.MeanOfOne | app/tasks/layer2_import_icrs.py:17-29 | One row is its own mean with the square of its own error, of right ascension, declination and redshift each; 100 km/s where a redshift has no error |
| Aggregation.PositionMeans | app/tasks/layer2_import_icrs.py:17-29 | The mean of a coordinate is a number exactly if no error of that coordinate is zero, and as certain as each position |
| Aggregation.MeanStaysOnSphere | postgres/migrations/V004__layer1_icrs.sql:13-18 | A mean right ascension that is a number stays in [0, 360), a mean declination in [-90, 90] |
| Aggregation.MeanIsNumberIff | app/tasks/layer2_import_icrs.py:17-31 | The mean is a number exactly if no error is zero |
| Aggregation.MeansCombine | app/tasks/layer2_import_redshift.py:17-27 | Combining the aggregates of two parts gives the aggregate of the whole |
| Aggregation.CountVotes | app/tasks/layer2_common.py:19-22 | The dict counts every text, keyed in the order of first appearance |
| Aggregation.FirstWithMost | app/tasks/layer2_common.py:24 | Of the keys with the largest count the earliest |
| Aggregation.MajorityOf | app/tasks/layer2_common.py:18-24 | The winner has most votes and is the first seen of those that do |
| Aggregation.MajorityVoteByPgc | app/tasks/layer2_common.py:14-25 | Each PGC once, in increasing order, with the winner of its own rows |
| Aggregation.FirstMajorityUnique | app/tasks/layer2_common.py:24 | There is one such winner |
| Aggregation.TieDecidedByOrder | app/tasks/layer2_common.py:24 | Any text with most votes wins under some order of the rows |
| Aggregation.SummaryIgnoresOrder | app/tasks/layer2_common.py:14-33 | What may be stored for a PGC does not depend on the order of its rows |
| Aggregation.SummaryDetermined | app/tasks/layer2_common.py:14-25 | One row may be stored exactly if the catalog is averaged or the vote is not tied |
| Aggregation.BatchIsPerPgc | app/tasks/layer2_import_icrs.py:14-33 | Averaging a whole batch gives each PGC once, with the average of its own rows |
| Aggregation.Aggregate | app/tasks/layer2_import_redshift.py:14-29 | One row per PGC of the batch, each a summary of that PGC's rows |
| Layers.RecomputeDetermined | app/tasks/layer2_import_icrs.py:14-33 | From-scratch results agree unless a vote is tied |
| Layers.WritesKeepFresh | app/data/repositories/common.py:21-27 | A writer that marks every PGC whose rows it changes keeps layer 2 fresh |
| Layers.LateMarkIff | app/data/repositories/common.py:21-27 | The mark of a write counts for a catalog exactly if its transaction began after the catalog's watermark |
| Layer2.Save | app/data/repositories/layer2/repository.py:75-113 | Upserts the rows of the catalog if no PGC repeats, else refuses |
| Layer2.SaveRowsEffect | app/data/repositories/layer2/repository.py:109-113 | Saved PGCs hold what was given, the others what they held |
| Layer2.GetOrphanedPgcs | app/data/repositories/layer2/repository.py:46-63 | A layer-2 PGC is listed exactly if no record of a layer-1 row carries it |
| Layer2.RemovePgcs | app/data/repositories/layer2/repository.py:65-73 | The PGCs are gone from this catalog, and nothing else |
| Layer2.PageStep | app/data/repositories/layer1.py:95-103 | Moving the cursor to the end of a page skips exactly that page |
| Layer2.BatchEnds | app/tasks/layer2_import_icrs.py:75-77 | The last row of a batch belongs to the last PGC of its page; a batch is empty exactly if its page is |
| Layer2.BatchRefreshes | app/tasks/layer2_import_icrs.py:81-86 | The aggregate of a batch has distinct PGCs, and saving it refreshes exactly those of its page |
| Layer2.SaveBatch | app/tasks/layer2_import_icrs.py:81-86 | Counts the page; saves an aggregate of the rows it was given and so refreshes the page, or changes nothing in a dry run |
| Layer2.ReadOn | app/lib/containers/batch.py:35-45 | With one more batch the log is still one unlimited answer, in order, for what the cursor has passed |
| Layer2.ImportStep | app/lib/containers/batch.py:35-45 | One turn of the loop is a read and the save of what it read, or an empty read; fewer eligible PGCs are left, or all have been read |
| Layer2.ImportBatches | app/lib/containers/batch.py:33-45 | The loop ends with every eligible PGC read once, whole, in order, and saved |
| Import.FinalizeCatalog | app/tasks/layer2_common.py:87-98 | Orphans deleted and watermark moved; a dry run counts the same orphans and changes nothing |
| Import.Run | app/tasks/layer2_import_icrs.py:60-102 | The whole effect of an import, and counts that a dry run predicts |
| Import.ImportedKeys | app/tasks/layer2_import_icrs.py:60-102 | The catalog has the PGCs read and those it had before, less the orphans if the import cleans up |
| Import.ImportExactIff | app/tasks/layer2_import_icrs.py:60-95 | An import with cleanup gives the from-scratch result exactly if the rows it did not read were up to date |
| Import.FreshUnread | app/tasks/layer2_common.py:97 | In a fresh state they are, given positive PGCs, a batch size of at least 1 and a start not beyond the watermark |
| Import.IncrementalEqualsFull | app/tasks/layer2_import_designation.py:42-75 | From a fresh state the incremental result is a from-scratch result, and equals any other one unless a vote is tied |
| Import.FromScratch | app/tasks/layer2_import_nature.py:42-82 | An import from before all marks computes a from-scratch result |
| Writers.AssignKeeps | app/data/repositories/layer0/records.py:209-217 | Assignment changes no group it does not touch and leaves a valid state |
| Writers.UpsertKeeps | app/data/repositories/layer0/records.py:233-245 | So does a direct write of PGCs, which touches the previous PGCs too |
| Writers.MergeKeeps | app/data/repositories/layer0/records.py:255-266 | So does a merge |
| Writers.SaveKeeps | app/data/repositories/layer1.py:74-80 | So does a save to layer 1 |
| Writers.CrossmatchKeeps | app/data/repositories/layer0/records.py:114-129 | Crossmatch results change no group and are stored in one of the three forms |
| Writers.GroupsSameIff | app/tasks/layer2_common.py:28-33 | When only tables or datatypes of records change, every group is the same exactly if no averaged row of a record with a PGC changes between compilation and not |
| Writers.RegisterKeepsIff | app/data/repositories/layer0/records.py:35-40 | Registering keeps every group exactly if the averaged rows of its assigned records are compilations just if the table is one |
| Writers.DatatypeKeepsIff | app/data/repositories/layer0/tables.py:484-489 | A new datatype keeps every group exactly if no averaged row of an assigned record of the table changes between compilation and not |
| Writers.RegisterFreshIff | app/data/repositories/layer0/records.py:35-40 | After registering, layer 2 is still fresh exactly if only marked PGCs may be stored differently |
| Writers.DatatypeFreshIff | app/data/repositories/layer0/tables.py:484-489 | After a new datatype, layer 2 is still fresh exactly if only marked PGCs may be stored differently |
| Writers.LateWriteFreshIff | app/data/repositories/common.py:21-27 | A write keeps a catalog fresh exactly if it began after the watermark or every touched PGC with rows is up to date |
| Writers.RegisterIdsKeeps | app/data/repositories/common.py:73-77 | Registering PGCs changes no group and no known modification time |
| Writers.CreateTableKeeps | app/data/repositories/layer0/tables.py:117-140 | Creating a table, which leaves an existing one alone, changes no group |
| Freshness.ImportKeepsFresh | app/tasks/layer2_common.py:87-98 | An import keeps every catalog fresh, although it moves the watermark |
| Freshness.WriterKeeps | app/data/repositories/layer0/records.py:114-266 | Every writer but the two that change classes touches what it changes |
| Freshness.ReclassifyGoodIff | app/data/repositories/layer0/tables.py:484-489 | A change of classes keeps the state good exactly if it is legal |
| Freshness.StepKeepsGood | app/data/repositories/common.py:21-27 | Every legal step keeps the state valid, PGCs positive and layer 2 fresh |
| Freshness.RunsAreFresh | app/data/repositories/layer0/records.py:131-266 | In every run from the empty database each layer-2 row is right or marked |
| Freshness.RunsImportExactly | app/tasks/layer2_import_icrs.py:60-95 | At any point of any run an import with cleanup gives a from-scratch result, the only one unless a vote is tied |
| Freshness.ImportsCommute | app/tasks/layer2_import.py:57-71 | Imports of distinct catalogs commute, up to the times of their watermarks |
| Freshness.SecondImportIsIdle | app/tasks/layer2_import_designation.py:54-75 | Right after an import another one reads and deletes nothing |
| StoredValues.StorableIff | postgres/migrations/V022__nature_catalog.sql:17-27 | A save is accepted exactly if every record is known and every row is one the checks allow |
| StoredValues.RunsStayAllowed | postgres/migrations/V004__layer1_icrs.sql:13-18 | In every run positions stay on the sphere and types known, in layer 1 and, unless a mean is no number, in layer 2 |
| InterleavedImport.StepOnCourse | app/lib/containers/batch.py:35-45 | Each statement of the import, and each write, keeps what the import relies on for every PGC that is not written too late |
| InterleavedImport.ExactIffLateSettled | app/tasks/layer2_import_icrs.py:73-95 | With writers between any two statements the import ends in the from-scratch result exactly if every PGC written too late has the right row at the end, or none if it has no rows |
| InterleavedImport.InterleavedImportIsExact | app/tasks/layer2_import_icrs.py:73-95 | With writers that began after the start date, keep beyond the page in hand, and stop after the read that finds nothing, the result is from-scratch for the state at the end |
| InterleavedImport.FreshIffLateUpToDate | app/tasks/layer2_common.py:96-97 | After the watermark the catalog is fresh exactly if every PGC that was written too late and has rows is up to date: its mark counts no more |
| InterleavedImport.UnreadIsLost | app/tasks/layer2_common.py:96-97 | A PGC new to layer 2 that no page held, as one minted after the last read, is stale and unmarked at the end |
| InterleavedImport.QuietRunIsImport | app/tasks/layer2_import_icrs.py:60-95 | Without writers the statements come to the import that `Import.Run` performs |
| InterleavedImport.TurnIsStatements | app/lib/containers/batch.py:35-45 | Each turn of the loop that `Layer2.ImportStep` performs is a read and a save of this machine, or its empty read |
| LateWrites.InFlightWriteIsLost | app/lib/containers/batch.py:35-45 | A run in which a record is retyped between the read of its page and the save: stale and unmarked at the end |
| LateWrites.WriteBehindIsLost | app/lib/containers/batch.py:35-45 | A run in which it is retyped behind the cursor |
| LateWrites.WriteAfterLastReadIsLost | app/tasks/layer2_common.py:87-98 | A run in which it is retyped after the read that finds nothing |
| LateWrites.LongTransactionIsLost | app/data/repositories/common.py:21-27 | With no import running, a save whose transaction began before the watermark leaves a row stale and unmarked |
| Chronicles.RunEndsGoodIff | app/tasks/layer2_import_icrs.py:73-95 | An import with writers beside it leaves every catalog fresh exactly if each PGC written too late, and not empty, is right |
| Chronicles.CommitGoodIff | app/data/repositories/common.py:21-27 | A transaction, whenever it began, keeps the state good exactly if each of its marks comes in time or is not needed |
| Chronicles.ChapterGoodIff | app/tasks/layer2_common.py:87-98 | A transaction that takes time, or an import as a run of statements, keeps the state good exactly if it loses nothing |
| Chronicles.ChroniclesAreFresh | app/data/repositories/common.py:21-27 | In every history of such steps that lose nothing each layer-2 row is right or marked |
| Chronicles.ChroniclesImportExactly | app/tasks/layer2_import_icrs.py:73-95 | At any point of it an import beside writers is from-scratch exactly if what was written too late is settled |
| Chronicles.InTimeLosesNothing | app/data/repositories/common.py:21-27 | Nothing is lost by a transaction that begins after every watermark, nor by an import without late writes |
| Chronicles.CommitIsEvent | app/lib/containers/batch.py:35-45 | Every write of the service, whenever it began, is one that may come between two statements of an import |
| Chronicles.ReclassifyIsEvent | app/adminapi/domain/table_upload.py:130-131 | So is every change of classes |
| Chronicles.RunsAreChronicles | app/data/repositories/common.py:21-27 | Runs of transactions that take no time are such histories |
| Reclassification.ReclassifiedIsLost | app/adminapi/domain/table_upload.py:130-131 | In a reachable state a PATCH of a table's datatype makes a fresh row stale and leaves no mark |
| Reclassification.MarkedPatchIsHarmless | app/adminapi/domain/table_upload.py:130-131 | In the state before the import the same PATCH changes a group and is legal |
| ImportTask.Choose | app/tasks/layer2_import.py:45-51 | Refused exactly if some name is that of no catalog; no names mean the four defaults, known names keep their order |
| ImportTask.RunAll | app/tasks/layer2_import.py:57-71 | Imports one after the other, each from the state the one before left |
| ImportTask.TaskIsExact | app/tasks/layer2_import.py:57-71 | Afterwards every chosen catalog is from-scratch and the others are untouched, repeated names included |
| ImportTask.DryTaskChangesNothing | app/tasks/layer2_import.py:57-71 | A dry run of the sequence changes nothing |
| OrphanCleanup.CleanUp | app/tasks/layer2_orphan_cleanup.py:30-43 | Counts the orphans of each catalog and deletes the union from all of them |
| OrphanCleanup.OrphansOfFour | app/tasks/layer2_orphan_cleanup.py:30-40 | The orphans are those of the four catalogs; the count adds up those of each |
| OrphanCleanup.CleanUpRemovesOrphans | app/tasks/layer2_orphan_cleanup.py:41-43 | Each catalog loses exactly the orphans of every catalog, so no orphan is left and surviving rows are unchanged |
| OrphanCleanup.CleanUpKeepsFreshIff | app/tasks/layer2_orphan_cleanup.py:41-43 | Layer 2 stays fresh exactly if every orphan that another catalog still has rows for is marked there |
| OrphanCleanup.CleanUpLoses | app/tasks/layer2_orphan_cleanup.py:41-43 | In a reachable state it deletes a correct, unmarked row of one catalog for an orphan of another |
| ProgressCounters.ZeroPendingCertifies | app/data/repositories/layer0/records.py:345-373 | A zero counter certifies every structured record of the table |
| ProgressCounters.AllZeroCertifiesCatalog | app/data/repositories/layer0/records.py:345-373 | Zero counters for all tables certify the whole catalog |
| ProgressCounters.ImportEmptiesCounters | app/data/repositories/layer0/records.py:345-373 | Right after an import nothing is pending and `in_layer2` counts every structured record with a PGC |
| ProgressCounters.FunnelAccounting | app/data/repositories/layer0/records.py:285-308 | The stages add up to the total plus the records with a PGC but no, or a pending, crossmatch |
| ProgressCounters.RegularRunsPartition | app/data/repositories/layer0/records.py:285-308 | The stages partition every table in every run where only assignment hands out PGCs and submitted records stay resolved |
| ProgressCounters.ReportsList | app/data/repositories/layer0/records.py:285-373 | Each of the two reports lists exactly the tables that pass the filter and have something to count |
| ProgressCounters.FunnelCounts | app/data/repositories/layer0/records.py:285-308 | Each counter of the funnel is the number of the records that its stage is about |
| ProgressCounters.ProgressCounts | app/data/repositories/layer0/records.py:345-373 | Each counter of a catalog is the number of the records it is about, however many rows they have |
| ProgressCounters.ResolvingMovesOne | app/data/repositories/layer0/records.py:285-308 | Resolving a pending record moves one from pending to resolved |
| ProgressCounters.AssigningMoves | app/data/repositories/layer0/records.py:285-308 | A successful assignment moves its records without a PGC from resolved to submitted, and no others |
| ProgressCounters.GetTableProgress | app/data/repositories/layer0/records.py:383-424 | The merged report has every table of the funnel, with its counts and those of each catalog: of one without a layer-2 table only the structured records, zero where a catalog has none |
| Filters.ComputeDrivingTable | app/data/repositories/layer2/filters.py:67-100 | The scans of And and Or compute the driving table |
| Filters.DrivingTableSound | app/data/repositories/layer2/filters.py:23-27 | A filter is never true of a row its driving table is missing from |
| Filters.QueryDrivingSound | app/data/repositories/layer2/repository.py:169-170 | Nor is the disjunction over several search types that share one |
| Filters.DrivingTableMissed | app/data/repositories/layer2/filters.py:95-100 | The analysis misses some strict filters |
| Filters.StrictSound | app/data/repositories/layer2/filters.py:23-27 | A filter is never true of a row that lacks one of its strict tables |
| Filters.StrictComplete | app/data/repositories/layer2/filters.py:23-27 | A filter is true of a row that lacks a table it is not strict on, once every leaf that does not need the table is |
| Filters.DrivingTableNoneIff | app/data/repositories/layer2/filters.py:67-100 | Without an And of two strict tables the analysis answers None exactly if no table is strict |
| Joins.LeftJoinsCount | app/data/repositories/layer2/repository.py:172-176 | How often a row occurs in a chain of left joins: a product over the tables |
| Joins.FullJoinOfCount | app/data/repositories/layer2/repository.py:177-180 | How often a row occurs in a full join of any tables: the same product, in any order of the tables |
| QueryPlan.EmittedCount | app/data/repositories/layer2/repository.py:134-136 | Row by row, the emitted joins are the intended ones without the objects the first table lacks |
| QueryPlan.SelectedRows | app/data/repositories/layer2/repository.py:134-137 | A query selects the intended rows whose object is in the first table of its FROM clause |
| QueryPlan.JoinRewritingSound | app/data/repositories/layer2/repository.py:167-176 | LEFT JOINs onto the driving table select the same bag of rows as the FULL JOIN of all the tables |
| QueryPlan.FullJoinExactIff | app/data/repositories/layer2/repository.py:177-180 | Without a driving table the text selects what it stands for exactly if no selected object is missing from the first table |
| SearchResults.OneRowPerObject | app/data/repositories/layer2/repository.py:228-233 | Joined in full, tables unique per object give each object they know one row |
| SearchResults.SearchFindsEachOnce | app/data/repositories/layer2/repository.py:201-226 | A search with a driving table selects each accepted object once, with all the catalogs say about it |
| SearchResults.PgcSearchAnswersIff | app/data/repositories/layer2/repository.py:177-180 | Asked for an object by number, the query answers exactly if its first table holds the object |
| SearchResults.UndrivenFoundIff | app/data/repositories/layer2/repository.py:177-180 | Without a driving table nothing is lost exactly if the first table holds every object the search accepts |
| SearchResults.EverythingFoundIff | app/dataapi/domain/parameterized_query.py:59-89 | A query with no filter loses nothing exactly if the first table holds every object that any table holds |
| SearchResults.PositionOnlyIsLost | app/dataapi/domain/parameterized_query.py:59-89 | An object with a position and no designation is answered or lost by the order of the two catalogs |
| SearchResults.SimpleQueryAcceptedIff | app/dataapi/domain/parameterized_query.py:59-89 | The database accepts a simple query exactly if its list of PGCs is not empty and it has not both radius and name, or the designations are requested |
| SearchResults.RadiusAndNameRefused | app/dataapi/domain/parameterized_query.py:59-89 | Whatever catalogs are requested, a query with both a radius and a name is refused |
| Rendering.RenderParses | app/data/repositories/layer2/filters.py:55-86 | A rendered filter, parsed with AND binding tighter than OR, is the filter's own tree |
| Rendering.WhereParses | app/data/repositories/layer2/repository.py:182-197 | The whole WHERE text is one expression exactly if no list of PGCs in it is empty; then its tree is given |
| Rendering.TreeMeansFilter | app/data/repositories/layer2/filters.py:55-86 | That tree has the filter's three-valued meaning on every row |
| Rendering.TextTrueIff | app/data/repositories/layer2/repository.py:184-197 | The text selects a row exactly if the row's own search does or a loose operand of any search does |
| Rendering.StrangerSelected | app/data/repositories/layer2/repository.py:184-197 | Two searches and a row: the text selects it for the search that rejects it |
| Rendering.TextMeansSearches | app/data/repositories/layer2/repository.py:184-197 | Without a top-level OR of two or more the text means what it should, unknowns included |
| Rendering.SingleTextMeansFilter | app/data/repositories/layer2/repository.py:536-557 | With the one search type of `query_catalogs` the text means its filter, whatever the filter |
| Binding.BindAppend | app/lib/storage/postgres/postgres_storage.py:142-159 | Texts that use up their own values keep them when put side by side |
| Binding.HolesAreValues | app/lib/storage/postgres/postgres_storage.py:152-159 | As many placeholders as values, the k-th receiving the k-th |
| Binding.LeafBinds | app/data/repositories/layer2/filters.py:39-43 | A leaf's placeholders receive the leaf's own parameters, escapes included |
| Sql.WrittenIsRead | app/lib/storage/postgres/postgres_storage.py:142-159 | Tokens written with the blanks of the query text are read as those tokens |
| Sql.CondReads | app/data/repositories/layer2/filters.py:39-43 | A condition that is written is read again, `::` binding tighter than `->>` |
| LeafTexts.LeafTextMeans | app/data/repositories/layer2/filters.py:113-170 | The text of each filter, its own parameters bound, is read as one condition and has the filter's value on every row |
| LeafTexts.EmptyListIsNoCondition | app/data/repositories/layer2/filters.py:39-43 | A filter for no PGC is no condition |
| FilterText.CollectParams | app/data/repositories/layer2/filters.py:58-64 | The loops of And and Or collect the parameters in order |
| FilterText.QueryIsWords | app/data/repositories/layer2/filters.py:85-92 | A filter's text and parameters are those of its words |
| FilterText.WordsBind | app/data/repositories/layer2/filters.py:88-92 | Bound together, each word's placeholders receive the word's own values |
| BatchQuery.OrderBinds | app/data/repositories/layer2/filters.py:199-207 | The ordering's placeholders receive the centre |
| BatchQuery.PoppedIsDriving | app/data/repositories/layer2/repository.py:169-170 | The one element of the set of driving tables, if there is one |
| BatchQuery.ConstructBatchQuery | app/data/repositories/layer2/repository.py:115-199 | Text and parameters, built apart, bind to the query with each search's, each filter's, the ordering's and the page's values in place; without searches the fixed text that answers nothing |
| FromClause.FromTextIsWords | app/data/repositories/layer2/repository.py:167-180 | What the query has between its columns and WHERE is the text of the join words |
| FromClause.FromMeansEmitted | app/data/repositories/layer2/repository.py:134-136 | Those words, parsed with joins grouping from the left and evaluated, give the joins of the plan, for any tables |
| FromClause.GroupedMeansIntended | app/data/repositories/layer2/repository.py:134-136 | With parentheses around the tables they would give every search beside the full join |
| FromTexts.FromTextMeans | app/data/repositories/layer2/repository.py:167-180 | The characters of the FROM clause are read as those words and mean the joins of the plan |
| WhereTexts.TextIsRead | app/data/repositories/layer2/repository.py:182-197 | Reading the characters of a WHERE clause is parsing its words, failures included |
| WhereTexts.WhereTextMeans | app/data/repositories/layer2/repository.py:182-197 | The characters of the WHERE clause, every value in place, are one expression exactly if no list of PGCs is empty, and it has the value on each row that the searches give it |
| SelectTexts.ColumnListMeans | app/data/repositories/layer2/repository.py:148-165 | The column list is read as one column for each item, in order, with its label and on every row the value of its cell |
| ValueTexts.LinesMean | app/data/repositories/layer2/repository.py:143-147 | The values of each search are read as a line of their own, under the names that the rest of the query uses |
| QueryTexts.AliasText | app/data/repositories/layer2/repository.py:128-131 | Those names are the ones the text gives the columns of the lines |
| QueryTexts.OrderTextMeans | app/data/repositories/layer2/filters.py:199-207 | The ordering is read as the distance between centre and object, in degrees as given, then the number |
| AnswerPages.OrderIsBefore | app/data/repositories/layer2/filters.py:199-207 | Read and evaluated, it sorts rows by distance, those without one last, then by number |
| QueryTexts.PageMeans | app/data/repositories/layer2/repository.py:136-137 | The end of the query is read as the limit and the offset that were asked for |
| WholeQuery.QueryMeans | app/data/repositories/layer2/repository.py:115-199 | The text of any query is a statement whose clauses are read as the searches, columns, joins, condition, order and page that were asked for |
| NamedTables.LeafTables | app/data/repositories/layer2/filters.py:113-170 | The condition that is the text of a filter names exactly the tables the filter is said to mention |
| NamedTables.AcceptedIff | app/data/repositories/layer2/repository.py:167-197 | A query is accepted exactly if its WHERE clause can be read and every table that a column in it or in its ordering is of stands in its FROM clause |
| SearchParameters.CollectParams | app/data/repositories/layer2/params.py:64-70 | The loop updates the dict part by part |
| SearchParameters.NestingIsFlat | app/data/repositories/layer2/params.py:64-70 | Of each key the last simple part that has it wins, however the parts are nested |
| SearchParameters.LastWins | app/data/repositories/layer2/params.py:64-70 | The last position and the last designation among the simple parts are those searched for |
| SearchParameters.UsualNames | app/data/repositories/layer2/params.py:61-62 | The names of a search by position, by designation, by both and by neither |
| SearchParameters.NameIsSafe | app/data/repositories/layer2/params.py:61-62 | A search's name is never empty and has no quote and no per cent sign, so it can stand in the query text |
| CatalogQuery.TextSelects | app/data/repositories/layer2/repository.py:182-197 | Without a top-level OR of two or more the WHERE text selects the rows whose own search accepts them |
| CatalogQuery.WrittenRewritingSound | app/data/repositories/layer2/repository.py:167-197 | For any filters and any number of search types that share a driving table, the WHERE text as parsed selects the same bag of rows from the LEFT JOINs as from the FULL JOIN of all the tables |
| CatalogQuery.AnswerCount | app/data/repositories/layer2/repository.py:536-557 | The answer to a search is what its filter means on the intended join, less the objects the first table lacks |
| CatalogQuery.AnswerIsExact | app/data/repositories/layer2/repository.py:536-557 | From tables unique per object each such object once, with all its catalogs, and nothing else |
| CatalogQuery.DrivenAnswerIsExact | app/data/repositories/layer2/repository.py:536-557 | With a driving table the answer is the objects the filter accepts, no more and no less |
| AnswerRows.AnswerIsEntries | app/data/repositories/layer2/repository.py:536-557 | With a driving table, of whatever multiplicity, the answer is one row for each of its entries that the filter accepts, whole |
| AnswerRows.NameSearchCounts | postgres/migrations/V061__designations_include_main.sql:3-18 | A search by name answers with an object once for each of its names that match |
| AnswerPages.UnorderedPageIff | app/data/repositories/layer2/repository.py:134-137 | Without an ordering a page is determined exactly if it shows nothing or everything, or all rows are alike |
| AnswerPages.PageRows | app/data/repositories/layer2/repository.py:136-137 | A page is the rows from the offset on, up to the limit |
| AnswerPages.OrderedPageFixed | app/data/repositories/layer2/filters.py:199-207 | Driven by a table with one entry per object, the ordering by distance and PGC determines every page |
| AnswerPages.GroupByPgc | app/data/repositories/layer2/repository.py:228-236 | Of each object of the page, in the order they appear, the first row |
| Collections.FirstOccurrencesOrder | app/lib/containers/group.py:4-15 | Of two keys of a dict the one listed first is the one seen first |
| AnswerPages.PageObjectsIff | app/data/repositories/layer2/repository.py:228-236 | A page has as many objects as rows exactly if no object has two rows in it |
| AnswerPages.FirstRowSaysAll | app/data/repositories/layer2/repository.py:233-236 | Rows of one object say the same of the requested catalogs, so keeping the first loses nothing |
| AnswerPages.NameSearchCrowds | app/dataapi/domain/parameterized_query.py:83-89 | An object with as many matching names as the page has rows can be all that the page shows |
| Columns.ItemsAreColumns | app/data/repositories/layer2/repository.py:148-165 | The select items are the column texts of the query, in order |
| Columns.ReadObject | app/data/repositories/layer2/repository.py:236-262 | The dicts filled label by label, and from them the catalogs that are present |
| Columns.ColumnsReadBack | app/data/repositories/layer2/repository.py:236-262 | Out of the labels comes each requested catalog that the row has a part of, with all its columns, and no other |
| ConeSearch.TablesOfCatalogs | app/data/model/redshift.py:35-37 | Each layer-2 table holds the rows of its catalog |
| ConeSearch.ConeSearchIsExact | app/dataapi/domain/parameterized_query.py:91-115 | A cone search finds an object exactly if none of its positions that count has a zero error and their mean is in the cone |
| ConeSearch.ConeSearchAfterImport | app/tasks/layer2_import_icrs.py:60-95 | The same right after an import of positions at any point of any run |
| ErrorGroup.ApplyKeepsInv | app/lib/concurrency/errorgroup.py:26-61 | Every step of every thread keeps the invariant: the stored error is that of the first thread that took the lock |
| ErrorGroup.WaitIsSound | app/lib/concurrency/errorgroup.py:48-61 | `wait` ends after every submitted call has, raises exactly if one raised, and raises the error that came first; results are as returned |
| ErrorGroup.RunsAreShort | app/lib/concurrency/errorgroup.py:48-61 | Once `wait` is called no schedule runs for ever |
| ErrorGroup.PoolIsBounded | app/lib/concurrency/errorgroup.py:20-32 | No schedule has more functions running at a time than the pool has workers |
| ErrorGroup.NeverStuck | app/lib/concurrency/errorgroup.py:26-61 | As long as `wait` is not over some thread can move: no deadlock |

## Left out

- HTTP servers, middlewares, authorisation, tracing, configuration, command line, Prefect flows, ADS and VizieR clients: I/O and library plumbing.
- PostgreSQL itself: isolation levels, failures of a connection. A transaction is one step, at its commit; the watermark is the time of the same clock, though the task takes its own.
- InterleavedImport.ExactIffLateSettled: one import with cleanup and not dry, beside any writers of layers 0 and 1; two imports at once are left out.
- Import.Run: reads run without an interleaved writer; `InterleavedImport` says what a writer beside an import may do.
- Aggregation.Aggregate: quantities are reals without units, rounding or overflow; `type_distribution`, the printed summary of types, is not modelled.
- Layer2.Save: unit conversion and staging table.
- Layer1.SaveStructuredData: the only column a request may leave out of an existing row is the redshift error; the other columns the aggregation reads are NOT NULL, and a request that omits one fails in the database. Columns it does not read are absent.
- Records.AssignRecordPgcs: row locks and the order in which new records are listed, which stays arbitrary.
- BatchQuery.ConstructBatchQuery: white space of the text is shortened, and the JSON encoding of search parameters is one value.
- WholeQuery.QueryMeans: the words around the clauses (WITH, SELECT, FROM, WHERE) are letters and not parsed; what they make of the clauses together is `QueryPlan` and `CatalogQuery`.
- Sql.WrittenIsRead: the reader knows what this query needs of SQL: no comments, no escapes inside quotes, keywords in capitals only.
- SqlMeaning.LeafCondMeans: types and columns that the tables do not have are errors in the database and no value here.
- QueryPlan.SelectedRows: ORDER BY, LIMIT and OFFSET are left to `AnswerPages`, and columns a table lacks are not modelled. A filter that names a table not joined reads NULL here and is an error in the database; `SearchResults.Accepted` says which queries are free of that.
- CatalogQuery.AnswerCount: the rows before LIMIT and OFFSET; `AnswerPages` says what those show of them.
- Columns.ReadObject: the conversion of a dict to a catalog object by `from_layer2`; a column is known by the layer-2 row it is of and its name.
- Rendering.WhereParses: a query without search types has an empty WHERE clause, a syntax error that has no counterpart here.
- FromClause.FromMeansEmitted: a LEFT or FULL JOIN has one table on its right here; the database also allows a join in parentheses there, which the query never has.
- ErrorGroup.WaitIsSound: exceptions that are not `Exception`, and a cancelled `wait`.
- ProgressCounters.GetTableProgress: the layer-1 tables of the catalogs without a layer-2 table are given as the records they have rows of; the threads the reports run in are `ErrorGroup`'s.
- Uploading of tables (`add_data` runs outside the transaction that its caller opens), bibliography, table metadata, TAP, response builders, console tables, `BackgroundCache`: mostly formatting.
- The other layer-1 catalogs, but for the counts of structured records: not aggregated to layer 2.
- `query_pgc` and `query_catalogs_pgc`: lookups by number; the latter is one full join, for which `Joins.FullJoinOfCount` holds.
