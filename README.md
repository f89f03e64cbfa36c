# Stock market analysis: a Dafny model of the cleaning, aggregation and dashboard core

The repository is a three-stage pipeline over a table of daily stock quotes:

1. `02_clean_data.py` reads the raw CSV as text (pandas already turns its
   default NA markers into nulls) and canonicalises the header
   with `to_snake_case`. It then trims every cell, turns the missing-value
   tokens into nulls, upper-cases ticker columns, lower-cases the others and
   rewrites `trade_date` in ISO form. The result is saved as `cleaned.parquet`.
2. `Stock_Market_Analysis/03_create_aggregations.py` (`create_aggregations`)
   reloads that table and standardises the column names. It adds the missing
   required columns and coerces the prices and volume to numbers. Next it
   derives the gap and validation flags, the exchange's country and the price
   change. Finally it writes six grouped views: daily, weekly, ticker, sector,
   exchange and notes.
3. `Stock_Market_Analysis/app.py` is a dashboard. `load_cleaned` repeats the
   coercions and flags and adds `trade_date_parsed`.
   `compute_aggregations` builds the dashboard's own six views. The page
   then keeps the daily, weekly and ticker views for the tickers the user
   selects, and recomputes the sector, exchange and notes views from the
   selected rows.

The model works as follows:

- **Tables.** A data frame is a column-major `Frames.Table`: names,
  columns of `Value` cells, and a height.
- **In-place updates.** Where the source assigns columns one after another,
  the model uses a `Frames.Frame` object, whose methods are proved against
  `Table` functions. The cleaning script's sheet, `Cleaning.Sheet`, is
  handled the same way.
- **Grouped views.** Each group-by is a map from the group key to a
  summary (`Grouping.GroupBy`). Null keys are dropped, and `mean`, `sum`
  and `count` skip nulls, as pandas does.
- **Parsers as parameters.** `pd.to_numeric` is the parameter `parseNum`
  and `pd.to_datetime` of a text is the parameter `parseDate`. A date is
  its day number, and weeks start on Monday.

Modules:

- `Text`: stripping and ASCII case mapping.
- `SnakeCase`: `to_snake_case`.
- `Calendar`: day numbers, weeks and ISO dates.
- `Cleaning`: the cleaning script.
- `Frames`: tables and frames.
- `Grouping`: group-by, filter and restriction.
- `Derivations`: coercion, flags, country and price change.
- `Views`: the row view and the summaries.
- `Aggregations`: `create_aggregations`.
- `Dashboard`: the app.

Points of the code that the model keeps as they are:

- Rows whose group key is null are dropped from every view, as pandas'
  `groupby` does by default.
- Two headers that canonicalise to the same name are not reported.
- The notes view's `count` counts the non-null tickers of a group, not its
  rows.
- The dashboard does not read the files the script writes: it recomputes
  its views from `cleaned.parquet`.

## Model

| member | source | states |
|---|---|---|
| SnakeCase.ReplaceNonAlnumRuns | 02_clean_data.py:12 | The result has only ASCII letters, digits and underscores, never two underscores in a row, and keeps the letters and digits of the input in order. |
| SnakeCase.ToSnakeCaseIsCanonical | 02_clean_data.py:10-14 | Every header `to_snake_case` produces is canonical: lower-case letters, digits and single underscores, with no underscore at either end. |
| SnakeCase.CanonicalUnchanged | 02_clean_data.py:10-14 | A canonical header is left unchanged by `to_snake_case`. |
| SnakeCase.ToSnakeCaseIdempotent | 02_clean_data.py:10-14 | Applying `to_snake_case` twice gives the same header as applying it once. |
| SnakeCase.SqueezeUnchanged | 02_clean_data.py:13 | Squeezing underscore runs changes nothing in a text that has no repeated underscore. |
| SnakeCase.ReplaceUnchanged | 02_clean_data.py:12 | Replacing non-alphanumeric runs changes nothing in a word text without repeated underscores. |
| SnakeCase.StripUnderscoresCanonical | 02_clean_data.py:14 | Stripping `_` from both ends of lower-case word text without repeated underscores yields a canonical name. |
| Text.DropLeading | 02_clean_data.py:11 | The result is a suffix of the input, does not start with a dropped character, and every character removed is a dropped one. |
| Text.DropTrailing | 02_clean_data.py:11 | The result is a prefix of the input, does not end with a dropped character, and every character removed is a dropped one. |
| Text.StripWithInfix | 02_clean_data.py:11 | A stripped text is a contiguous infix of the input, and everything outside it is a stripped character. |
| Text.StripWithEnds | 02_clean_data.py:14 | A non-empty stripped text starts and ends with a kept character. |
| Text.StripWithUnchanged | 02_clean_data.py:11 | Stripping a text that starts and ends with kept characters changes nothing. |
| Text.StripIdempotent | 02_clean_data.py:26 | Trimming a trimmed cell changes nothing. |
| Text.LowerSpec | 02_clean_data.py:37 | Lower-casing keeps the length and yields lower-case text. A text is lower-case iff lower-casing leaves it unchanged. Lower-casing an upper-cased text equals lower-casing the original. |
| Text.UpperSpec | 02_clean_data.py:35 | The upper-case counterpart of `LowerSpec`: same length, upper-case result, fixed points exactly the upper-case texts, and it absorbs a prior lower-casing. |
| Calendar.WeekStart | Stock_Market_Analysis/03_create_aggregations.py:86 | The week start of a day is a Monday, and the day falls within the seven days that begin on it. |
| Calendar.WeekStartUnique | Stock_Market_Analysis/03_create_aggregations.py:86 | Only one Monday has a given day within its seven days, so the week start is unique. |
| Calendar.WeekOfSecondJanuary2024 | Stock_Market_Analysis/app.py:56 | 1 January 2024 is a Monday and is the week start of 2 January 2024. |
| Calendar.FormatIso | 02_clean_data.py:43 | A formatted date is always ten characters of the form `YYYY-MM-DD`. |
| Calendar.ParseFormatIso | 02_clean_data.py:41-43 | Parsing a formatted date gives back the same date. |
| Calendar.FormatParseIso | 02_clean_data.py:41-43 | A text that parses as an ISO date is reproduced exactly by formatting what it parses to. |
| Cleaning.Sheet.constructor | 02_clean_data.py:21 | The sheet holds the header and the text columns as read. |
| Cleaning.Sheet.NormalizeHeader | 02_clean_data.py:23 | Each header becomes its `to_snake_case`, and the cells are unchanged. |
| Cleaning.Sheet.TrimCells | 02_clean_data.py:26 | Every cell is trimmed, nulls stay null, and the header is unchanged. |
| Cleaning.Sheet.ReplaceMissingTokens | 02_clean_data.py:29-30 | A cell whose whole text is a missing token becomes null; every other cell is unchanged. |
| Cleaning.Sheet.StandardizeCase | 02_clean_data.py:33-37 | Cells in a column whose name contains `ticker` are upper-cased, and all other cells are lower-cased. |
| Cleaning.Sheet.ParseTradeDate | 02_clean_data.py:40-43 | If there is a `trade_date` column, each of its cells is rewritten as the ISO form of its parsed date, or null when it does not parse. The other columns are unchanged. |
| Cleaning.Sheet.Clean | 02_clean_data.py:21-43 | The whole cleaning pass: every header is the canonical snake case of the original, and every cell is the original cell cleaned for its column. |
| Cleaning.BlankCellIsNull | 02_clean_data.py:26-30 | A cell of blanks becomes null in every column. |
| Cleaning.CleanCellNullIff | 02_clean_data.py:26-37 | Outside `trade_date`, a cleaned cell is null iff it was null or its trimmed text is a missing token; otherwise it is the trimmed text, case-mapped. |
| Cleaning.CleanCellCasing | 02_clean_data.py:33-37 | A non-null cleaned cell is upper-case in a column whose name contains `ticker`, and lower-case in every other column. |
| Cleaning.CleanTradeDate | 02_clean_data.py:40-43 | A cleaned `trade_date` cell is null iff the cell was missing or its lower-cased text does not parse. Otherwise it is the ISO form of the parsed date. |
| Cleaning.CleanCellTwice | 02_clean_data.py:26-37 | Cleaning a cleaned cell again changes nothing, provided the first pass did not produce a missing token. |
| Cleaning.CleaningNotIdempotent | 02_clean_data.py:29-37 | Cleaning is not idempotent in general: `Na` cleans to `na`, which is itself a missing token and cleans to null. |
| Frames.FirstIndex | Stock_Market_Analysis/03_create_aggregations.py:37 | The index returned is the first occurrence of the column name. |
| Frames.Nulls | Stock_Market_Analysis/03_create_aggregations.py:30 | A column of the given height whose cells are all null. |
| Frames.Table.Assigned | Stock_Market_Analysis/03_create_aggregations.py:30 | Assigning a column replaces it in place, or appends it when absent. The new cells are the given ones, and every other column is unchanged. |
| Frames.ReplaceColumn | Stock_Market_Analysis/03_create_aggregations.py:37 | Replacing an existing column yields a valid table that carries the new cells and leaves every other column unchanged. |
| Frames.AppendColumn | Stock_Market_Analysis/03_create_aggregations.py:30 | Appending a new column yields a valid table that carries the new cells and leaves every other column unchanged. |
| Frames.FirstIndexOfPrefix | Stock_Market_Analysis/03_create_aggregations.py:30 | Appending columns does not move an existing column. |
| Frames.Frame.constructor | Stock_Market_Analysis/app.py:18 | The new frame holds the given table. |
| Frames.Frame.Assign | Stock_Market_Analysis/03_create_aggregations.py:30 | Column assignment changes the frame to the assigned table. |
| Frames.Frame.Rename | Stock_Market_Analysis/03_create_aggregations.py:15 | Renaming replaces the names and keeps the cells. |
| Frames.Frame.Copy | Stock_Market_Analysis/app.py:55 | `df.copy()` is a fresh frame with the same contents. |
| Grouping.Group | Stock_Market_Analysis/03_create_aggregations.py:68 | A group holds exactly the rows with that key. |
| Grouping.GroupMultiset | Stock_Market_Analysis/03_create_aggregations.py:68 | A group holds each row with its key as many times as the table does, and no row with another key. |
| Grouping.GroupBy | Stock_Market_Analysis/03_create_aggregations.py:68 | The view has an entry for exactly the non-null keys that occur, and no group is empty. |
| Grouping.TotalOfAppend | Stock_Market_Analysis/03_create_aggregations.py:72 | Column sums add up over concatenated rows. |
| Grouping.GroupTotalsPartition | Stock_Market_Analysis/03_create_aggregations.py:68-76 | Summing a weight over the groups of a set of keys equals summing it over the rows with those keys. |
| Grouping.SumOverGroupBy | Stock_Market_Analysis/03_create_aggregations.py:68-76 | Summing a summed field over a view's entries equals summing it over those entries' groups. |
| Grouping.GroupByConserves | Stock_Market_Analysis/03_create_aggregations.py:68-76 | A field a view sums adds up, over the whole view, to its sum over the rows that have a key. |
| Grouping.Filter | Stock_Market_Analysis/app.py:135 | Filtering keeps exactly the rows that pass the test, each as many times as it occurs, and never adds rows. |
| Grouping.FilterNoneKept | Stock_Market_Analysis/app.py:135 | Filtering rows that all fail the test gives no rows. |
| Grouping.Restrict | Stock_Market_Analysis/app.py:141 | Restricting a view keeps exactly the selected keys and leaves their entries unchanged. |
| Grouping.GroupOfFilter | Stock_Market_Analysis/app.py:135-154 | When every row with a key passes the filter, that key's group is the same before and after filtering. |
| Grouping.GroupByOfFilter | Stock_Market_Analysis/app.py:135-149 | Grouping the filtered rows gives the full view restricted to the selected keys, provided the filter decides by the key. |
| Derivations.Coerce | Stock_Market_Analysis/03_create_aggregations.py:37 | `to_numeric(errors="coerce")`: null stays null, and a text becomes null exactly when it does not parse as a number. |
| Derivations.CoerceIdempotent | Stock_Market_Analysis/app.py:23-25 | Coercing a coerced cell again changes nothing. The dashboard relies on this when it repeats the script's conversion. |
| Derivations.GapFlag | Stock_Market_Analysis/03_create_aggregations.py:42-43 | A gap flag is 0 or 1, and 0 when the note is null. |
| Derivations.GapFlagIgnoresCase | Stock_Market_Analysis/03_create_aggregations.py:42-43 | The gap flags do not depend on the note's case. |
| Derivations.ValidatedFlag | Stock_Market_Analysis/03_create_aggregations.py:44 | The validated flag is 0 or 1, and 0 when the cell is null. |
| Derivations.ValidatedFlagIgnoresCase | Stock_Market_Analysis/03_create_aggregations.py:44 | The validated flag is 1 exactly when the lower-cased text is `yes` or `y`. Case does not matter. |
| Derivations.ValidatedFlagExamples | Stock_Market_Analysis/03_create_aggregations.py:44 | `Y` gives 1, while `no` and null give 0. |
| Derivations.Country | Stock_Market_Analysis/03_create_aggregations.py:49-57 | The country is one of the six names. It is `Unknown` exactly when the trimmed, lower-cased exchange is not in the table, and is the table's country otherwise. |
| Derivations.TableValues | Stock_Market_Analysis/03_create_aggregations.py:50-56 | Every exchange in the table maps to a real country, never to `Unknown`. |
| Derivations.CountryOfUpperCaseExchange | Stock_Market_Analysis/03_create_aggregations.py:49-57 | `NYSE` maps to `USA` despite its case. |
| Derivations.CountryOfUnlistedExchange | Stock_Market_Analysis/03_create_aggregations.py:57 | An unlisted exchange and a null exchange both map to `Unknown`. |
| Derivations.CountryIgnoresSurroundingSpace | Stock_Market_Analysis/03_create_aggregations.py:49 | Blanks around the exchange do not change the country. |
| Derivations.PriceChange | Stock_Market_Analysis/03_create_aggregations.py:62 | The price change is null iff either price is null; otherwise it is the close minus the open. |
| Derivations.PriceChangeCellReads | Stock_Market_Analysis/03_create_aggregations.py:62 | The stored price-change cell reads back as the price change of the two prices. |
| Derivations.Coerced | Stock_Market_Analysis/app.py:23-25 | The listed columns that are present are coerced cell by cell; every other column is unchanged. |
| Derivations.WithFlag | Stock_Market_Analysis/03_create_aggregations.py:42-44 | A flag column holds the flag of the source cell in each row; every other column is unchanged. |
| Derivations.WithFlags | Stock_Market_Analysis/03_create_aggregations.py:42-44 | The three flag columns are added, each computed row by row, and every other column is unchanged. |
| Derivations.WithCountry | Stock_Market_Analysis/03_create_aggregations.py:49-57 | `exchange_clean` and `country` are added row by row, and every other column is unchanged. |
| Derivations.CoerceColumns | Stock_Market_Analysis/app.py:23-25 | The coercion loop leaves the frame equal to `Coerced` of its old contents. |
| Derivations.AssignFlags | Stock_Market_Analysis/app.py:27-29 | The three flag assignments leave the frame equal to `WithFlags` of its old contents. |
| Derivations.AssignCountry | Stock_Market_Analysis/03_create_aggregations.py:49-57 | The two assignments leave the frame equal to `WithCountry` of its old contents. |
| Views.Mean | Stock_Market_Analysis/03_create_aggregations.py:69 | A mean is missing iff no value is present. Otherwise it times the number of present values equals their sum. |
| Views.CountAndMissing | Stock_Market_Analysis/03_create_aggregations.py:74-75 | Present values and missing values together account for every row of a group. |
| Views.MeanMissingIffAllMissing | Stock_Market_Analysis/03_create_aggregations.py:69 | A mean is missing exactly when every value in the group is missing. |
| Views.SumBetween | Stock_Market_Analysis/03_create_aggregations.py:71 | When every present value is within bounds, the sum is within the count times those bounds. |
| Views.MeanBetween | Stock_Market_Analysis/03_create_aggregations.py:69-70 | When every present value lies within two bounds, so does the mean. |
| Views.MissingOpensIsTotal | Stock_Market_Analysis/03_create_aggregations.py:74 | The `missing_open` count equals the number of rows whose open price is null. |
| Views.TickerCount | Stock_Market_Analysis/03_create_aggregations.py:144 | The notes view's `count` never exceeds the group's size. |
| Views.TickerCountIsTotal | Stock_Market_Analysis/03_create_aggregations.py:144 | The notes view's `count` is the number of rows with a non-null ticker. |
| Views.DailyEntry | Stock_Market_Analysis/03_create_aggregations.py:68-76 | A (date, ticker) pair is in the daily view iff some row carries it, and its entry summarises exactly those rows. |
| Views.DailyGapUpConserved | Stock_Market_Analysis/03_create_aggregations.py:72 | The daily `gap_up_count` values add up to the gap-up flags of all rows with both keys. |
| Views.DailyMissingOpenConserved | Stock_Market_Analysis/03_create_aggregations.py:74 | The daily `missing_open` counts add up to the missing opens of all keyed rows. |
| Views.TickerValidatedConserved | Stock_Market_Analysis/03_create_aggregations.py:107 | The ticker view's `validated_count` values add up to the validated flags of all rows with a ticker. |
| Views.SectorGapDownConserved | Stock_Market_Analysis/03_create_aggregations.py:122 | The sector view's `total_gap_down` values add up to the gap-down flags of all rows with a sector. |
| Views.NotesCountConserved | Stock_Market_Analysis/03_create_aggregations.py:144 | The notes view's counts add up to the rows with a note and a ticker. |
| Views.DashboardDailyIsTrimmedDaily | Stock_Market_Analysis/app.py:42-48 | The dashboard's daily view has the script's keys and agrees with it on every field it shows. |
| Views.DifferencesArePriceChanges | Stock_Market_Analysis/app.py:110 | On rows whose price change was derived, the lambda's close-minus-open values are those price changes. |
| Views.DashboardNotesAgree | Stock_Market_Analysis/app.py:107-113 | On such rows the dashboard's notes view equals the script's. |
| Views.SumOfDifferences | Stock_Market_Analysis/03_create_aggregations.py:62 | When every price is present, the differences sum to the closes' sum minus the opens' sum. |
| Views.PriceChangeAverage | Stock_Market_Analysis/03_create_aggregations.py:103-106 | When every price is present, `price_change_avg` equals `avg_close` minus `avg_open`. |
| Aggregations.StandardNameIdempotent | Stock_Market_Analysis/03_create_aggregations.py:15 | Standardising a column name twice gives the same name as doing it once. |
| Aggregations.StandardShape | Stock_Market_Analysis/03_create_aggregations.py:15 | A standardised name has no surrounding blanks, no upper-case letters and no spaces. |
| Aggregations.ShapedIsStandard | Stock_Market_Analysis/03_create_aggregations.py:15 | A name of that shape is left unchanged by standardisation. |
| Aggregations.StandardNameKeepsSnakeCase | Stock_Market_Analysis/03_create_aggregations.py:15 | Names the cleaning script made canonical pass through standardisation unchanged. |
| Aggregations.Standardized | Stock_Market_Analysis/03_create_aggregations.py:15 | Every column name is standardised, and the cells are unchanged. |
| Aggregations.WithColumns | Stock_Market_Analysis/03_create_aggregations.py:28-30 | After the loop the table has every column it had plus every listed one. The old columns keep their order and cells, and the added ones are null. |
| Aggregations.WithColumnsStep | Stock_Market_Analysis/03_create_aggregations.py:28-30 | One more iteration of the loop adds one more listed column. |
| Aggregations.StandardizeNames | Stock_Market_Analysis/03_create_aggregations.py:15 | Renaming leaves the frame equal to `Standardized` of its old contents. |
| Aggregations.AddRequired | Stock_Market_Analysis/03_create_aggregations.py:17-30 | The loop leaves the frame equal to the old table with the nine required columns ensured. |
| Aggregations.AddColumns | Stock_Market_Analysis/03_create_aggregations.py:28-30 | The loop over a column list leaves the frame equal to `WithColumns` of its old contents. |
| Aggregations.Prepare | Stock_Market_Analysis/03_create_aggregations.py:15-62 | Preparation leaves the frame equal to `Prepared` of its old contents. |
| Aggregations.AssignWeeks | Stock_Market_Analysis/03_create_aggregations.py:86-87 | The frame gains `week_start` and `volatility`. |
| Aggregations.WeekStartCell | Stock_Market_Analysis/03_create_aggregations.py:86 | The weekly step fails on a null date (the lambda meets `NaT`, which has no `start_time`), a number or an unparsable text. A parsed date maps to the Monday that starts its week. |
| Aggregations.NullSafeWeekStartCell | Stock_Market_Analysis/03_create_aggregations.py:86 | The corrected week start: a null date gets a null week, and only a number or an unparsable text fails. |
| Aggregations.WeekColumn | Stock_Market_Analysis/03_create_aggregations.py:86 | The week column exists iff every `trade_date` cell converts (no null, no unparsable text), and then has one cell per row. |
| Aggregations.CreateAggregations | Stock_Market_Analysis/03_create_aggregations.py:9-149 | The whole run: the final frame and the views written are those of `ScriptFrame` and `ScriptOutcome` of the table read, including the stop at the weekly step on a null or unparsable date. |
| Aggregations.InputColumnsNotDerived | Stock_Market_Analysis/03_create_aggregations.py:42-62 | None of the input columns (ticker, date, sector, exchange, notes, validated) is overwritten by a derivation. |
| Aggregations.DeriveKeeps | Stock_Market_Analysis/03_create_aggregations.py:42-62 | The derivations change only the columns they assign. |
| Aggregations.DeriveFlags | Stock_Market_Analysis/03_create_aggregations.py:42-44 | After derivation each flag column holds the flag of that row's notes or validated cell. |
| Aggregations.DeriveCountry | Stock_Market_Analysis/03_create_aggregations.py:49-57 | After derivation each row's `country` is the country of its exchange. |
| Aggregations.DerivePriceCell | Stock_Market_Analysis/03_create_aggregations.py:62 | After derivation each row's `price_change` reads as the price change of its open and close. |
| Aggregations.PriceColumnCell | Stock_Market_Analysis/03_create_aggregations.py:62 | On any table, the assigned `price_change` cell of a row reads as the price change of that row's open and close. |
| Aggregations.DeriveHas | Stock_Market_Analysis/03_create_aggregations.py:42-62 | After derivation the table has every column it had and every derived one. |
| Aggregations.ConvertedKeeps | Stock_Market_Analysis/03_create_aggregations.py:35-37 | The conversion leaves non-numeric columns unchanged. |
| Aggregations.ConvertedNumber | Stock_Market_Analysis/03_create_aggregations.py:35-37 | The conversion coerces each numeric column cell by cell. |
| Aggregations.ConvertedHas | Stock_Market_Analysis/03_create_aggregations.py:17-37 | After conversion every standardised and every required column is present. |
| Aggregations.PreparedKeeps | Stock_Market_Analysis/03_create_aggregations.py:15-62 | Preparation leaves every input column that is not derived as it was after standardisation. |
| Aggregations.PreparedNumber | Stock_Market_Analysis/03_create_aggregations.py:35-37 | In the prepared table, each numeric column is the coerced standardised column. |
| Aggregations.PreparedColumns | Stock_Market_Analysis/03_create_aggregations.py:15-62 | The prepared table has every required, derived and standardised column. |
| Aggregations.PreparedRowCells | Stock_Market_Analysis/03_create_aggregations.py:15-37 | Each prepared row carries the standardised ticker, date, sector, exchange and notes, and the coerced numbers. |
| Aggregations.PreparedRowFlags | Stock_Market_Analysis/03_create_aggregations.py:42-44 | Each prepared row's flags are computed from its own notes and validated cells. |
| Aggregations.DerivedRowFlags | Stock_Market_Analysis/03_create_aggregations.py:42-44 | The same, stated for any table before derivation. |
| Aggregations.DerivePrice | Stock_Market_Analysis/03_create_aggregations.py:62 | A derived row's price change is the close minus the open, read as numbers. |
| Aggregations.PreparedRowPrice | Stock_Market_Analysis/03_create_aggregations.py:62 | Each prepared row's price change is the price change of its own open and close. |
| Aggregations.PreparedCountry | Stock_Market_Analysis/03_create_aggregations.py:49-57 | Each prepared row's country is the country of its standardised exchange. |
| Aggregations.RunWritesEveryView | Stock_Market_Analysis/03_create_aggregations.py:67-149 | A run completes iff every `trade_date` is a date or a parsable text (a null stops it), and then it writes all six views. Otherwise it stops after writing the daily view. |
| Aggregations.AbortsWithoutTradeDate | Stock_Market_Analysis/03_create_aggregations.py:28-30 | A non-empty table without `trade_date` gets an all-null column, so the run stops at the weekly step after writing the daily view. |
| Aggregations.NullSafeWeeksWithoutTradeDate | Stock_Market_Analysis/03_create_aggregations.py:86 | With the corrected week start, that synthesised all-null column converts: every row gets a null week. |
| Aggregations.OutcomeWithKeys | Stock_Market_Analysis/03_create_aggregations.py:67-149 | The same, stated for any prepared table that has the five key columns. |
| Aggregations.PreparedKeys | Stock_Market_Analysis/03_create_aggregations.py:17-30 | The prepared table always has every column a view groups by. |
| Aggregations.WithWeeksHas | Stock_Market_Analysis/03_create_aggregations.py:86-87 | Adding the week columns removes no column. |
| Aggregations.WeeklyRow | Stock_Market_Analysis/03_create_aggregations.py:86-92 | In the weekly frame, each prepared row carries the week start of its own trade date and its volatility. |
| Aggregations.WeeklyFrameRow | Stock_Market_Analysis/03_create_aggregations.py:86-87 | The same, stated for any prepared table. |
| Aggregations.WithWeeksRow | Stock_Market_Analysis/03_create_aggregations.py:86-87 | The row view of the weekly frame is the old row with week start and volatility added. |
| Aggregations.ScriptNotesAreDashboardNotes | Stock_Market_Analysis/03_create_aggregations.py:142-147 | The script's notes view equals the one the dashboard's lambda computes from the same prepared rows. |
| Dashboard.ParsedDateCell | Stock_Market_Analysis/app.py:32 | `to_datetime(errors="coerce")`: a parsed text becomes its day and an unparsable one becomes null. |
| Dashboard.Loaded | Stock_Market_Analysis/app.py:22-35 | The intended loader keeps the row count and yields a valid table. |
| Dashboard.LoadCleaned | Stock_Market_Analysis/app.py:16-35 | With no stored file the frame is empty. Otherwise it is the intended `Loaded` table. |
| Dashboard.LoadAsWrittenFails | Stock_Market_Analysis/app.py:27-29 | The loader as written fails exactly when `notes` or `validated` is missing, and otherwise returns the intended table. |
| Dashboard.LoadWithoutNotes | Stock_Market_Analysis/app.py:27-29 | For a one-row table with a ticker and `validated` but no `notes`, the loader as written raises. The intended loader gives gap flag 0 and validated flag 1. |
| Dashboard.LoadedColumns | Stock_Market_Analysis/app.py:22-35 | The loaded table has exactly the stored columns, the three flags and `trade_date_parsed`. |
| Dashboard.LoadedRow | Stock_Market_Analysis/app.py:22-35 | Each loaded row has coerced prices, flags computed from its own cells, and its parsed trade date. |
| Dashboard.ComputeAggregations | Stock_Market_Analysis/app.py:38-117 | The result is `Computed` of the old frame. The only change to the frame is the `price_change` column added by the ticker step. |
| Dashboard.DailyStep | Stock_Market_Analysis/app.py:41-51 | The daily view, or an empty frame when a key column is missing. |
| Dashboard.WeeklyStep | Stock_Market_Analysis/app.py:54-65 | The weekly view is computed on a copy, and the caller's frame is not changed. It fails on a null or unparsable trade date. |
| Dashboard.TickerStep | Stock_Market_Analysis/app.py:68-81 | Adds `price_change` to the frame and returns the ticker view. |
| Dashboard.TickerFrame | Stock_Market_Analysis/app.py:69 | Keeps the row count and yields a valid table. |
| Dashboard.ComputeChangesOnlyPriceChange | Stock_Market_Analysis/app.py:69 | The frame after computing differs from the loaded one only in `price_change`, which holds each row's price change. |
| Dashboard.ComputedViewsPresent | Stock_Market_Analysis/app.py:41-115 | Each computed view is present exactly when its key columns are. |
| Dashboard.ComputeSucceeds | Stock_Market_Analysis/app.py:38-117 | With all columns present, computing fails exactly when a trade date is null or does not parse. Otherwise all six views are present. |
| Dashboard.ComputeFailsOnNullDate | Stock_Market_Analysis/app.py:54-56 | A null trade date anywhere makes the computation fail at the weekly step. |
| Dashboard.AllColumnsGive | Stock_Market_Analysis/app.py:38-117 | A table with every column the views read has each view's inputs. |
| Dashboard.TickerFrameHas | Stock_Market_Analysis/app.py:69 | Adding `price_change` keeps every column. |
| Dashboard.ComputedParts | Stock_Market_Analysis/app.py:84-115 | The sector, exchange and notes views are grouped from the frame that carries `price_change`. |
| Dashboard.TickerFrameRow | Stock_Market_Analysis/app.py:69 | Each row of that frame carries its own price change. |
| Dashboard.ComputedNotesAgree | Stock_Market_Analysis/app.py:107-113 | The dashboard's notes view equals the script's notes view of the same rows. |
| Dashboard.SelectTickers | Stock_Market_Analysis/app.py:135 | With nothing selected every row is kept. Otherwise a row is kept exactly when its ticker is selected, as many times as it occurs. |
| Dashboard.RestrictPairs | Stock_Market_Analysis/app.py:139-145 | A present daily or weekly view keeps exactly the entries whose ticker is selected, unchanged. |
| Dashboard.RestrictTickers | Stock_Market_Analysis/app.py:147-149 | A present ticker view keeps exactly the selected tickers, unchanged. |
| Dashboard.RestrictedDailyIsRecomputed | Stock_Market_Analysis/app.py:139-141 | Restricting the daily view gives the same view as recomputing it from the selected rows. |
| Dashboard.RestrictedWeeklyIsRecomputed | Stock_Market_Analysis/app.py:143-145 | The same holds for the weekly view. |
| Dashboard.RestrictedTickerIsRecomputed | Stock_Market_Analysis/app.py:147-149 | The same holds for the ticker view. |
| Dashboard.NoSelectionShowsComputed | Stock_Market_Analysis/app.py:135-183 | With nothing selected, the tabs show the computed views unchanged. |
| Dashboard.NothingSelectedEmpties | Stock_Market_Analysis/app.py:152-183 | A selection that no row carries leaves the sector, exchange and notes tabs empty. |
| Dashboard.SelectedKeysAreSelected | Stock_Market_Analysis/app.py:139-149 | Every daily, weekly and ticker entry kept under a selection belongs to a selected ticker and keeps its computed summary. |
| Dashboard.RunDashboard | Stock_Market_Analysis/app.py:119-183 | With the corrected loader `Dashboard.Loaded`, the page ends as `DashboardScreen` says: stopped, failed with an exception, or showing the six tabs. |
| Dashboard.ScreenStops | Stock_Market_Analysis/app.py:120-122 | With the corrected loader, the page stops exactly when there is no stored table or it has no rows. |
| Dashboard.StopsOnlyWhenEmpty | Stock_Market_Analysis/app.py:121-122 | With the corrected loader, only an empty loaded frame stops the page. |

## Left out

**Input, output and environment**

- File I/O: reading the CSV and parquet files, writing parquet and the `print` messages. Stored tables are parameters, and written views are values.
- Missing input file: the cleaning script's exit when the CSV is absent is out of scope, since it is I/O.
- Cleaning.Sheet.constructor: the sheet's cells are what `read_csv(dtype=str)` returns. pandas' default NA markers (`NULL`, `nan`, `n/a`, `#N/A`, `<NA>` and the rest), matched exactly and before any trimming, are already null there. The model does not list those markers, so a raw text `NULL` must be given to it as a null cell.
- Streamlit and Altair rendering: `st.error`, the charts, the tabs' layout and the page configuration are out of scope. Only what each tab would show is modelled.
- `st.cache_data`: the model recomputes on every run. It also lets `compute_aggregations` change the loaded frame, which is what happens on a cache miss.
- Multiselect: the ticker selection is the parameter `sel`. The default of the first five tickers is not modelled.
- `pd.to_numeric` and the date parser are the opaque parameters `parseNum` and `parseDate`. `infer_datetime_format` and pandas' date grammar are not modelled.
- Files outside the core: `01_load_raw_data.py` and the repository's top-level `app.py` are not part of this model.

**Values and types**

- Floating point: prices and volumes are reals. NaN is the null value, and rounding is not modelled.
- Unicode casing: case mapping is modelled for ASCII letters only; Python's `str.lower` and `str.upper` also map other letters. Stripping uses the full set of characters `str.isspace` accepts.
- Week start: `to_period("W").start_time` yields a timestamp. The model gives the day number of that Monday and ignores the time of day.
- Numeric trade dates: `pd.to_datetime` applied to a numeric or already-parsed cell is not modelled. A numeric `trade_date` is treated as a conversion failure in the weekly step.
- `exchange_clean` text: for a null exchange, pandas stores a text: `"<na>"` for a null read back from the cleaned table's string column, `"none"` for the column synthesised with `None`. The model stores null. Either way the country is `Unknown`.

**Frame structure**

- Duplicate column names: the first column with a name is the one read and replaced.
- Row order of grouped output: a view is a map from key to summary. pandas' sorted row order is not represented.
- The filtered frame: `filtered_cleaned` is modelled as the selected rows read through the unfiltered frame's columns.
- `Dashboard.Selected`: the notes lambda's `None` for an empty group cannot happen, since a group is never empty.
- Error cases: exceptions are the `Error` values `KeyError` and `DateError`. `DateError` covers both the parse error of `pd.to_datetime` and the `AttributeError` of the week lambda on `NaT`. Which of two simultaneous exceptions pandas raises first is not modelled.
- Dashboard.RunDashboard, Dashboard.DashboardScreen, Dashboard.ScreenStops, Dashboard.StopsOnlyWhenEmpty: the page is modelled with the corrected loader of the Findings row. As written, `load_cleaned` raises `AttributeError` for a stored table without `notes` or `validated`, even one with no rows, before the empty check. That crash is stated only for the loader (`Dashboard.LoadAsWrittenFails`), not for the page.

## Findings

| source | as written | input that shows it | evidently intended | confidence | as-written member | corrected member |
|---|---|---|---|---|---|---|
| Stock_Market_Analysis/app.py:27-29 | `df.get("notes", "")` returns the text `""` when the column is absent, and `"".astype(str)` raises `AttributeError`, so the dashboard cannot load a table without `notes` or `validated` | a cleaned table with columns `ticker` and `validated` and no `notes` | flags of 0 for the missing column, as the `""` default suggests | not executed | Dashboard.LoadedAsWritten (shown by Dashboard.LoadWithoutNotes) | Dashboard.Loaded |
| Stock_Market_Analysis/03_create_aggregations.py:86 | Here and at `Stock_Market_Analysis/app.py:56`, `.dt.to_period("W").apply(lambda r: r.start_time)` calls the lambda on `NaT` for a null date, and `NaT` has no `start_time`, so the weekly step raises `AttributeError` | a non-empty cleaned table without `trade_date` (synthesised as all null), or with one missing date | a null week for a null date, the other rows grouped as usual | not executed; follows pandas' `Series.apply` and `NaTType` | Aggregations.WeekStartCell (shown by Aggregations.AbortsWithoutTradeDate, Dashboard.ComputeFailsOnNullDate) | Aggregations.NullSafeWeekStartCell (shown by Aggregations.NullSafeWeeksWithoutTradeDate) |

The script and dashboard members keep the week start as written, so they stop where the code raises. The corrected week start is stated on its own.
