# Feedback ingestion, modelled in Dafny

This project models the core of a small Flask application that collects
customer feedback. It has two parts.

The first part is the ingestion routine `etl(df)` (app/etl.py). It takes one
merged feedback table and mutates it in place, step by step:

1. it returns at once on an empty frame;
2. it fills missing ratings with 3 and missing sentiments with "Neutral";
3. it parses dates and drops the rows whose date does not parse;
4. it keeps only the allowed sources, then only the allowed sentiments;
5. it nulls out-of-range ratings and refills them with the median;
6. it derives the length, date-only, sentiment category, capitalized text
   and numeric sentiment columns;
7. it checks the nine required columns;
8. it stages one `Feedback` record per row, skipping a row that fails;
9. it commits once, and rolls back on any exception.

The second part is the role and permission table of `User`, and the
NOT NULL shape of a `Feedback` record (app/models.py).

Modules, in dependency order:

- `Wrappers` holds `Option`.
- `Models` holds users, roles and permissions, the `Feedback` record, and
  `Draft`, an added but unflushed Feedback object.
- `Stats` holds insertion sort and the median over reals.
- `Text` holds ASCII `str.capitalize`.
- `Cleaning` covers lines 12-35: default fill, date parsing, the two enum
  filters and the rating repair.
- `Enrichment` covers lines 38-53: derived columns and the schema check.
- `Store` is the database session, a class with `staged` and `committed`.
- `Etl` ties the routine together.

`Etl` works in three layers:

- The function `Prepare` states what lines 6-53 compute.
- The imperative methods (`Validate`, `Derive`, `Stage`, `CommitOrRollback`,
  `Etl`) run the same steps on a local frame and on a `Session`. Each is
  proved against those functions, and `Etl` is proved against `Reported`.
- The lemmas restate the outcome in terms of the input table.

Modelling choices:

- **Rows.** A table row is a record of `Option` cells. A row keeps its pandas
  index label after date parsing, because `dropna` and boolean masks keep
  labels. "Ordered subsequence of the input" is therefore stated as strictly
  increasing labels plus an exact survival condition per input row.
- **Foreign code.** Two functions are parameters:
  - `parse` stands for `pd.to_datetime(..., errors='coerce')` on one cell;
  - `constructs` says whether building the Feedback object and adding it to
    the session succeeds (SQLAlchemy code that cannot be seen).
- **Commit.** A commit fails exactly when a staged object has a null
  NOT NULL column (app/models.py:26-35). Only category and rating can still
  be null at that point.
- **Ratings** are reals. Once a column holds a NaN, pandas stores it as
  floats, and the median of an even count is the mean of the two middle
  values.

Some behaviour of the code is easy to misread. The model follows the code:

- `str.capitalize` lower-cases every character after the first.
- A null `Feedback Text` raises at `len` on line 38 and rolls back the whole
  run. It is not a skipped row.
- A `Source`, `Sentiment Score` or `Feedback Text` column that does not exist
  raises a KeyError before the column check is reached, and so does a
  missing `Date` column. A missing category or rating column reaches the
  check, which returns without touching the session.
- When no rating is left in range, the median is NaN and the null rating
  survives. The NOT NULL commit then fails and the run is rolled back.
- A `Feedback Text` column with no string in it is a float column in pandas.
  If lines 17-32 drop every row, `len` on line 38 has nothing to fail on,
  but `.str.capitalize()` on line 41 raises, and the run is rolled back
  instead of committing nothing.

## Model

| member | source | states |
|---|---|---|
| Models.HasPermission | app/models.py:17-18 | the definition: a user has a permission when it is in the list of the user's role; its meaning is stated by `HasPermissionExactly` |
| Models.IsAdmin | app/models.py:20-22 | the definition: the role is "administrator"; `AdminIffAdminPermission` relates it to the permission table |
| Models.PermissionsOf | app/models.py:11-18 | a role missing from ROLES gets the empty list; a listed role gets exactly its list |
| Models.HasPermissionExactly | app/models.py:11-18 | has_permission holds exactly for the role/permission pairs of the table, stated independently role by role (both directions) |
| Models.UnknownRoleHasNoPermission | app/models.py:18 | a role outside the table has no permission at all, because of the `.get(..., [])` default |
| Models.PermissionsNested | app/models.py:11-15 | customer permissions are developer permissions, which are administrator permissions |
| Models.NoRoleGrantsAdministrator | app/models.py:11-15 | no role grants a permission called "administrator" |
| Models.AdminIffAdminPermission | app/models.py:11-22 | is_admin holds exactly when the user holds the "admin" permission |
| Models.AdminPageClosedToEveryone | app/routes.py:194-200 | the administrator page gate as written turns away every user |
| Models.AdminPageOpenAsWritten | app/routes.py:197 | the definition of the gate as written: the user holds a permission called "administrator"; `AdminPageClosedToEveryone` shows it never holds |
| Models.AdminPageOpenToAdministrators | app/routes.py:194-200 | the corrected gate admits exactly the users whose role is administrator |
| Models.AdminPageOpen | app/routes.py:197 | the definition of the intended gate: the user holds the "admin" permission; `AdminPageOpenToAdministrators` shows it holds exactly for administrators |
| Models.ToRecord | app/models.py:25-35 | a flushed object becomes a row exactly when category and rating are non-null, and the row carries every attribute unchanged |
| Models.Records | app/models.py:25-35 | a successful flush writes one row per staged object, in order |
| Models.Persistable | app/models.py:25-35 | the definition of a flush that passes NOT NULL: every pending object has a category and a rating; `Store.Session.Commit` uses it |
| Stats.Insert | app/etl.py:35 | inserting into a sorted list gives a sorted permutation one longer |
| Stats.Sort | app/etl.py:35 | the values in ascending order: sorted, same multiset, same length |
| Stats.Median | app/etl.py:35 | undefined (NaN) exactly for an empty population; otherwise bounded below and above by members of the population |
| Stats.MiddleOf | app/etl.py:35 | the middle step of `median()` on a sorted population: the middle value, or the mean of the two middle values; `MedianOfSorted` states it of `Median` |
| Stats.MedianWithin | app/etl.py:35 | the median lies within any bounds every value respects |
| Stats.SortedUnique | app/etl.py:35 | two sorted lists with the same elements are equal |
| Stats.MedianOfPermutation | app/etl.py:35 | the median does not depend on row order |
| Stats.MedianOfSorted | app/etl.py:35 | for an ordered population the median is the middle value, or the mean of the two middle values |
| Stats.MedianOfOneToFive | app/etl.py:35 | the ratings 1, 2, 3, 4, 5 have median 3 |
| Text.Capitalize | app/etl.py:41 | `str.capitalize`: same length, first character upper-cased, every other character lower-cased |
| Text.Upper | app/etl.py:41 | the case mapping of the first character: an ASCII lower-case letter becomes its upper-case letter, any other character stays |
| Text.Lower | app/etl.py:41 | the case mapping of every later character: an ASCII upper-case letter becomes its lower-case letter, any other character stays |
| Text.CapitalizeIsCapitalized | app/etl.py:41 | the stored text is always in capitalized form |
| Text.CapitalizeFixesExactlyCapitalized | app/etl.py:41 | capitalizing leaves a text unchanged exactly when it is already capitalized |
| Text.CapitalizeIdempotent | app/etl.py:41 | capitalizing twice equals capitalizing once |
| Cleaning.IsEmpty | app/etl.py:6 | the definition of `DataFrame.empty`: no rows or no columns; `Etl.EmptyRun` states what the routine does with it |
| Cleaning.IsNull | app/etl.py:12 | the definition of one cell of `df.isnull()` for the six modelled columns; `NullCount` counts it |
| Cleaning.NullCount | app/etl.py:12 | a column's null count is the number of rows at which that column is null; so it is at most the number of rows, and zero exactly when no cell of that column is null |
| Cleaning.NullCounts | app/etl.py:12-14 | the logged map has a key for exactly the present columns with a null cell, and maps each to the number of its null cells |
| Cleaning.AnyMissing | app/etl.py:13 | the definition of `missing_data.any()`: some count is positive; `AnyMissingIff` states it in terms of the cells |
| Cleaning.AnyMissingIff | app/etl.py:12-13 | `missing_data.any()` holds exactly when some cell of some present column is null |
| Cleaning.FillRow | app/etl.py:15 | a null rating becomes 3 and a null sentiment "Neutral" (only when the column exists); every other cell is unchanged |
| Cleaning.FillDefaults | app/etl.py:15 | the fill is applied row by row and keeps the number of rows |
| Cleaning.FillLeavesNoNullDefaults | app/etl.py:15 | after the fill, no rating and no sentiment of an existing column is null |
| Cleaning.FillWithoutMissingIsIdentity | app/etl.py:13-15 | filling a frame without nulls changes nothing |
| Cleaning.Dated | app/etl.py:17-21 | a row is kept with its label exactly when its date is present and parses, with every other cell unchanged |
| Cleaning.ParseDates | app/etl.py:17-21 | the kept rows come from the input, in label order, and every row whose date parses is kept |
| Cleaning.ParseDatesDrops | app/etl.py:18-21 | a row with a null or unparsable date makes the frame strictly shorter |
| Cleaning.ParseDatesKeepsAll | app/etl.py:17-21 | when every date parses, no row is dropped and row k keeps label k |
| Cleaning.Keep | app/etl.py:22-32 | a boolean mask keeps exactly the rows that pass, in order, and keeps every row when all pass |
| Cleaning.KeepValidSources | app/etl.py:22-26 | the kept rows are exactly those whose source is one of the three allowed values, in order |
| Cleaning.KeepValidSentiments | app/etl.py:28-32 | the kept rows are exactly those whose sentiment is one of the three allowed values, in order |
| Cleaning.HasValidSource | app/etl.py:23 | the definition of the `isin(valid_sources)` mask on one row: the source is present and one of the three allowed values |
| Cleaning.HasValidSentiment | app/etl.py:29 | the definition of the `isin(valid_sentiments)` mask on one row: the sentiment is present and one of the three allowed values |
| Cleaning.Screen | app/etl.py:17-32 | the definition of lines 17-32 as the three filters in order; `ScreenSpec` states what survives |
| Cleaning.ScreenSpec | app/etl.py:17-32 | a row survives the three filters exactly when its date parses and both enum cells are allowed; survivors stay in input order; a dropped row never comes back |
| Cleaning.InRangeRatings | app/etl.py:34 | the ratings left after nulling are exactly the present ratings in [1,5] |
| Cleaning.InRangeRatingsOne | app/etl.py:34-35 | one row adds its rating to the median population exactly when it is present and in [1,5] |
| Cleaning.InRangeRatingsAppend | app/etl.py:34-35 | the population of two frames is the two populations one after the other, so each in-range rating counts as often as it occurs |
| Cleaning.NoInRangeRatings | app/etl.py:34-35 | with no rating in [1,5] nothing is left to take the median of |
| Cleaning.InRange | app/etl.py:34 | the definition of the range test: a rating lies in [1,5] |
| Cleaning.RepairedRating | app/etl.py:34-35 | the definition of the repair of one cell: an in-range rating stays, any other becomes the median; `RepairRatingsSpec` states what it promises |
| Cleaning.RepairRatings | app/etl.py:33-35 | each row keeps its rating when it is in range, and otherwise gets the median of the in-range ratings |
| Cleaning.RepairRatingsSpec | app/etl.py:33-35 | after the repair every present rating is in [1,5]; in-range ratings are unchanged; the rest become the median; none is null when some rating was in range; other cells are unchanged |
| Cleaning.RepairKeepsInRangeRows | app/etl.py:33-35 | a frame whose ratings are all present and in range is left as it is |
| Enrichment.MapCell | app/etl.py:40-42 | `Series.map(dict)` gives the dictionary's value for a key in it, and NaN for any other key |
| Enrichment.SentimentMapsTotal | app/etl.py:40-42 | both mappings are defined exactly on the three valid sentiments: Positive/Good/1, Neutral/Neutral/0, Negative/Bad/-1 |
| Enrichment.ConsistentSentimentIsValid | app/etl.py:40-42 | a consistent triple has a valid score and the values both maps give it |
| Enrichment.Enrich | app/etl.py:38-42 | the derived record: date-only day, source, capitalized text, length of the original text, both sentiment mappings, category and rating as they are |
| Enrichment.EnrichAll | app/etl.py:38-42 | one derived record per row, in order |
| Enrichment.EnrichValid | app/etl.py:38-42 | a derived record satisfies every record invariant once its rating is repaired |
| Enrichment.LengthSurvivesCapitalization | app/etl.py:38-41 | Feedback Length equals the text's length both before and after capitalization |
| Enrichment.FirstMissing | app/etl.py:44-53 | no column is reported exactly when all required columns exist; otherwise the first absent one in list order is reported |
| Enrichment.FindMissingColumn | app/etl.py:50-53 | the loop over required columns stops at exactly that first absent column |
| Enrichment.MissingColumnIsCategoryOrRating | app/etl.py:44-53 | once the columns read earlier exist, the check can only report the category or the rating column |
| Store.Session.Add | app/etl.py:67 | `session.add` appends the object to the pending list and writes nothing |
| Store.Session.Commit | app/etl.py:73 | commit succeeds exactly when no pending object has a null NOT NULL column; then every pending object is written, in order, and nothing stays pending; otherwise nothing changes |
| Store.Session.Rollback | app/etl.py:77 | rollback discards the pending objects and keeps the written rows |
| Etl.DropIssue | app/etl.py:18-32 | a filter logs a warning exactly when it dropped rows, and the warning counts them |
| Etl.Filled | app/etl.py:13-15 | the definition of the guarded fill: the default fill when some cell is null, the rows as they are otherwise; `FilledIsFillDefaults` shows the guard changes nothing |
| Etl.MissingLog | app/etl.py:14 | the definition of the warning of line 14: one entry carrying the null counts exactly when some cell is null |
| Etl.Repaired | app/etl.py:33-35 | the repair keeps the number of rows and their validity |
| Etl.Accepted | app/etl.py:54-71 | at most one staged object per row, and every row's object when every construction succeeds |
| Etl.AcceptedMembers | app/etl.py:54-71 | an object is staged exactly when it is a row's object and its construction succeeds |
| Etl.AcceptedAppend | app/etl.py:54-71 | skipping is decided row by row, so the staged objects keep row order |
| Etl.RecordErrors | app/etl.py:69-71 | one error entry per skipped row |
| Etl.Abort | app/etl.py:75-77 | an exception is logged and rolled back: nothing stays pending and nothing is written |
| Etl.Stage | app/etl.py:54-71 | after the loop the session holds its old objects plus the accepted ones, in order, nothing is written, and one error is logged per skipped row |
| Etl.CommitOrRollback | app/etl.py:73-77 | the commit writes every pending object or none of them; a failed commit is logged and rolled back |
| Etl.StageAndCommit | app/etl.py:54-77 | staging followed by one commit: all accepted rows are written in order, or none |
| Etl.Prepare | app/etl.py:6-53 | the reference definition of lines 6-53 as one function of the input; `PrepareCases`, `ScreenedCases` and the lemmas after them state what it promises |
| Etl.AfterFill | app/etl.py:17-21 | the reference definition of lines 17-53 from the filled rows: a missing Date column raises, otherwise rows with bad dates are dropped and counted |
| Etl.AfterDates | app/etl.py:22-26 | the reference definition of lines 22-53: a missing Source column raises, otherwise rows with other sources are dropped and counted |
| Etl.AfterSources | app/etl.py:28-32 | the reference definition of lines 28-53: a missing Sentiment Score column raises, otherwise rows with other sentiments are dropped and counted |
| Etl.Finish | app/etl.py:33-53 | the reference definition of lines 33-53; `FinishCases` states its cases |
| Etl.TextIsString | app/etl.py:41 | the definition of a string-typed text column: some input cell holds a string |
| Etl.Settled | app/etl.py:73-77 | the definition of how one commit ends: all pending records written and counted, or none written and the error logged; `AllOrNothing` restates it |
| Etl.Reported | app/etl.py:6-77 | the definition of how a run ends for each result of lines 6-53; `EmptyRun`, `MissingColumnRun` and `AllOrNothing` state what it promises |
| Etl.Validate | app/etl.py:6-53 | the step-by-step run over a local frame computes exactly `Prepare` |
| Etl.Derive | app/etl.py:33-53 | repair, enrichment, the `.str` accessor check and the schema check, run step by step, agree with `Finish` |
| Etl.Dispatch | app/etl.py:6-77 | how the run ends for each way lines 6-53 can end, as `Reported` states |
| Etl.Etl | app/etl.py:5-77 | the whole routine ends as `Reported` states, given `Prepare` of its input |
| Etl.FilledIsFillDefaults | app/etl.py:12-15 | the guard on line 13 changes nothing: the frame after line 15 is the default fill of the input |
| Etl.FinishCases | app/etl.py:33-53 | a missing text column or a null text raises; a text column without strings raises at `.str`; a missing category or rating column is reported, category first; otherwise the repaired rows reach the loop; nothing is logged |
| Etl.ScreenedRows | app/etl.py:17-32 | every row that survives lines 17-32 has an allowed source and sentiment |
| Etl.DateLog | app/etl.py:14-20 | the definition of the warnings of lines 14 and 20 from the input; `DateLogCounts` and `DateLogKept` state what they promise |
| Etl.ScreenLog | app/etl.py:14-31 | the definition of the warnings of lines 14, 20, 25 and 31 from the input; `ScreenedCases` shows it is the log of every run that gets past line 32 |
| Etl.PrepareReachesFinish | app/etl.py:6-32 | with a non-empty frame and the three columns of lines 17-32 present, those lines amount to the three filters over the filled rows |
| Etl.PrepareCases | app/etl.py:6-32 | only an empty frame returns at line 8; a missing Date, Source or Sentiment column raises, the first in program order is reported; a commit failure is never a fault of this stage |
| Etl.ScreenedCases | app/etl.py:33-53 | which of raising (missing text column, null text, text column without strings), reporting a missing column or reaching the loop happens, and with which rows, records and log |
| Etl.NoStringAccessorOnlyWhenAllDropped | app/etl.py:38-41 | the `.str` accessor raises exactly when the frame has the columns read on lines 17-38, no input text is a string, and lines 17-32 dropped every row |
| Etl.SurvivorTextIsString | app/etl.py:38-41 | a surviving row with a text makes the text column a string column |
| Etl.FilledRowSurvives | app/etl.py:15-32 | a filled row passes lines 17-32 exactly when the raw row's date parses, its source is allowed and its sentiment is allowed or null |
| Etl.Survives | app/etl.py:15-32 | the definition of survival of one raw row: its date parses, its source is allowed, its sentiment is allowed or null; `ScreenedFromInput` shows the survivors are exactly these rows |
| Etl.ScreenedFromInput | app/etl.py:15-32 | the survivors are an ordered subsequence of the input, and input row i is among them exactly when it survives |
| Etl.ReadyRows | app/etl.py:15-53 | the rows reaching the loop are an ordered subsequence of the input, exactly the surviving ones, with one record each |
| Etl.ReadyRecord | app/etl.py:15-42 | each staged record against its raw row: parsed day, source, capitalized text, original length, sentiment or "Neutral", category, rating 3 when null, kept when in range, otherwise the median; every record invariant holds |
| Etl.AfterDatesExtendsLog | app/etl.py:22-53 | lines 22-53 only append to the log |
| Etl.DateLogKept | app/etl.py:12-53 | the warnings of lines 14 and 20 head the log of every run that gets past line 17 |
| Etl.DateLogCounts | app/etl.py:18-20 | a null or unparsable date makes line 20 log a positive count of dropped rows |
| Etl.InvalidDateLogged | app/etl.py:17-21 | a row that is not a date is dropped, and the run's log warns with the number of dropped rows |
| Etl.CleanRowsNotMissing | app/etl.py:12-15 | a frame of clean rows has no null, so the fill does not run |
| Etl.CleanRowsScreened | app/etl.py:17-35 | clean rows all pass the three filters and the repair unchanged, in order |
| Etl.CleanTableKeptWhole | app/etl.py:6-53 | a clean frame with all columns reaches the loop whole, in order, with nothing logged |
| Etl.CleanTableScreened | app/etl.py:12-35 | a frame of clean rows passes lines 12-35 whole, in order, with no null text and nothing logged |
| Etl.CleanLogEmpty | app/etl.py:12-32 | when the fill does not run and no filter drops a row, nothing is logged |
| Etl.NullDraftRejected | app/etl.py:54-77 | one object with a null column whose construction succeeds is staged, and then the whole commit fails, whatever the other rows do |
| Etl.ScreenedRow | app/etl.py:15-32 | each survivor is the parsed form of a filled input row that survives |
| Etl.NullCategoryRejected | app/etl.py:54-77 | a surviving row with a null category whose own object constructs makes the commit fail, so the run rolls back |
| Etl.NoRatingInRange | app/etl.py:34-35 | when no surviving rating is in [1,5], no rating is left for the median |
| Etl.NoRatingInRangeRejected | app/etl.py:34-77 | then the median is NaN, the rating stays null, and once that row's object constructs the commit fails |
| Etl.EmptyRun | app/etl.py:6-8 | only an empty frame gives NoData, and such a run logs one warning and leaves the session untouched |
| Etl.MissingColumnRun | app/etl.py:44-53 | the schema check names only the category or rating column (category first), an absent one, and returns with the session untouched |
| Etl.AllOrNothing | app/etl.py:73-77 | a run either writes every accepted record in order and reports their number, or writes nothing; nothing stays pending after a rollback or a commit |
| Etl.ValidRecord | app/models.py:25-35 | the definition of the invariants of a stored row: allowed source and sentiment, matching sentiment category and number, length of its text, capitalized text, rating in [1,5] |
| Etl.ReadyDraftsValid | app/etl.py:22-42 | every record that reaches the staging loop keeps the record invariants |
| Etl.CommittedFromValidDrafts | app/etl.py:54-77 | when the records the run stages keep the invariants, every row it writes keeps them and the rows written before stay |
| Etl.CommittedRecordsValid | app/etl.py:5-77 | every row a run writes has an allowed source and sentiment, matching sentiment values, its text's length, a capitalized text and a rating in [1,5], and the rows written before stay |

## Left out

- The Flask routes, login, password hashing and charts of app/routes.py are
  not modelled. Neither is the file reading and concatenation that builds
  the frame (app/routes.py:83-88). The only exception is the permission gate
  analysed under Findings.
- app/__init__.py, config.py and run.py (app factory and configuration) are
  not part of this model.
- `pd.to_datetime` format inference is not modelled. Parsing is the `parse`
  parameter, applied one cell at a time. Pandas infers one format for the
  whole column, and that is not captured.
- Logging: info messages are not kept. Warnings and errors become an
  append-only list of `Issue` values that carry the logged counts.
- SQLAlchemy object construction and `session.add` are foreign code and
  stand behind `constructs`. The database engine's checks, other than
  NOT NULL, are not modelled.
- `Etl.Validate`: the routine mutates the caller's DataFrame in place on
  lines 15, 17 and 21. When neither enum filter drops a row, lines 34-42
  change the caller's frame too. A filter that drops rows rebinds `df` to a
  new frame (line 26 or 32), and later changes stay local. The model works
  on a local value, so this aliasing is not captured.
- The only caller, app/routes.py:91, calls `etl.etl(df)`. But app/routes.py:12
  binds `etl` to the function itself, so that call raises AttributeError
  before the routine runs, and app/routes.py:92 catches it. The model
  describes the routine as it behaves when it is called directly.
- `Etl.TextIsString`: pandas is taken to type the Feedback Text column as
  strings exactly when some input cell holds one, and a column of nulls only
  as floats, as read_csv and read_excel do. A text column read as numbers,
  on which `len` raises, is not modelled, because texts are strings here.
- `Etl.Validate`: the model follows pandas 1.x/2.x. Under Copy-on-Write
  (pandas 3.0), the chained `df['Rating'].fillna(..., inplace=True)` on
  line 35 would not write back to the frame.
- Only the six input columns the routine reads are modelled. Extra columns
  can still be named in `Table.columns`, but their cells are not.
- `Cleaning.NullCounts`: line 12 counts nulls in every column of the frame.
  The model counts them only in the six modelled columns. A null that sits
  only in an extra column therefore changes the logged warning, and nothing
  else, because the fill on line 15 touches only Rating and Sentiment Score.
- Ratings are reals, so a non-numeric rating cell is not modelled. In the
  source it would make the comparison on line 34 raise. The model also does
  not capture how the database engine stores a median such as 3.5 in the
  Integer `rating` column.
- `Text.Capitalize` handles ASCII letters only. Unicode case mapping, which
  can change the length of a string, is not modelled.
- Concurrency and the real database are not modelled. `Store.Session` is an
  in-memory stand-in with `staged` and `committed`.

## Findings

| source | as written | input that shows it | evidently intended | confidence | as-written member | corrected member |
|---|---|---|---|---|---|---|
| app/routes.py:197 | the administrator page requires `has_permission('administrator')`, a permission no role in `User.ROLES` grants | any user, e.g. one whose role is 'administrator': the check is false, so the page always redirects with "Access denied." | require the 'admin' permission (equivalently `is_admin`), so that administrators get in | high (not executed) | Models.AdminPageClosedToEveryone | Models.AdminPageOpenToAdministrators |
