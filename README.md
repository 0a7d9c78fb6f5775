# A verified model of the CSV transaction matcher and the bulk address query

This project models two scripts of the IQI tooling.

- **The fuzzy CSV matcher** (`tool_for_comparing_csv_data.py`). Each of two CSV exports is *prepared*:
  - the configured string columns are stripped and lower-cased;
  - the date columns are parsed by `try_parse_date`;
  - one `match_key_i` column is built per key set: the normalised address text, or the parsed date;
  - a `__source` label is added.

  `match_data` then compares every file1 row with every file2 row. Non-date keys are scored with a token-sort ratio. Two dates score 100 when they are at most `date_tolerance_days` days apart. A pair is matched when its mean score reaches the threshold. The function returns the matched records, the unmatched file1 rows, and the file2 rows whose first original value no record shares.
- **The bulk address query** (`find_unmatched_transactions.py`). This script:
  - checks for the four address columns;
  - drops rows with a missing value;
  - normalises US state names to their postal codes;
  - builds one `ILIKE` clause per row;
  - sets the clauses and the sorted, distinct states into a fixed `SELECT`.

The model works on values:

- A DataFrame is a `Table`: ordered column labels plus rows, each row a map from label to `Cell`.
- A cell is a `str`, an integer, a float, a `Timestamp`, `NaT` or `None`.
- Python exceptions are `Failure` values of a `Result`.
- The steps that update a DataFrame in place are methods on a `Frame` class:
  - `prepare_df` on its copy: `df[col] = ...`, `normalize_dates`.
- Each loop is a method proved equal to the function that specifies it: `match_data`'s nested loops, the key loop, and the clause loop.
- Three foreign functions are parameters (`Cells.Oracles`):
  - `rapidfuzz.fuzz.token_sort_ratio`;
  - the flexible `pd.to_datetime`;
  - `str()` of a `Timestamp`.

### What is proved

- **Scoring** (`Matching.KeyScore`, `MatchingFacts.KeyScoreMidnights`, `MatchingFacts.KeyScoreOrderMatters`):
  - scores lie in [0, 100];
  - day differences floor, as `Timedelta.days` does, so the order of two stamps matters;
  - a difference outside the `Timedelta` range raises pandas' `OutOfBoundsDatetime` ("Result is too large for pandas.Timedelta").
- **The nested loop** (`MatchingFacts`):
  - exactly the accepted pairs are matched, in row order;
  - exactly the rows that match nothing are unmatched;
  - a higher threshold matches a subset and leaves a superset unmatched;
  - every similarity lies between the threshold and 100;
  - the exceptions are exactly the ones listed in `MatchErrors`, and with the configured keys only two remain possible (`Settings.CompareFilesFacts`).
- **Preparation** (`Prepare`):
  - the column classification;
  - the value of every column and key after preparation;
  - the address slots;
  - with the corrected date parser, failure exactly on an empty key set;
  - as written, failure also on an infinite float in a date column (`Prepare.PreparedAsWrittenFailure`, `Settings.CompareFilesAsWrittenFacts`);
  - `main`'s log arguments raise `KeyError` for a file without its date column (`Settings.CompareFilesAsWrittenFacts`).
- **Dates** (`DateParsing`):
  - the strict `YYYYMMDD` round trip;
  - integral floats read as their digits;
  - invalid calendar dates become NaT.
- **State normalisation** (`States`):
  - full names in any case map to codes;
  - everything else is stripped and upper-cased;
  - normalisation is idempotent.
- **The address query** (`AddressQuery`):
  - the first missing column is reported;
  - `dropna` keeps exactly the complete rows, in order;
  - there is one clause per row, in order, with its fields verbatim;
  - the only exceptions are `AttributeError`s on non-text fields;
  - with no complete row the query is still produced, with an empty state list `('')` and an empty condition block.

## Model

| member | source | states |
|---|---|---|
| Settings.AddressKeyKind | Intelligence_IQI/tool_for_comparing_csv_data/tool_for_comparing_csv_data.py:13-15 | the first configured key set is not a date key set in either file, so it becomes an address key |
| Settings.DateKeyKind | Intelligence_IQI/tool_for_comparing_csv_data/tool_for_comparing_csv_data.py:16 | the second configured key set (`sale_date`, `Sale Date`) is a date key set in both files |
| Settings.NoDateIn | Intelligence_IQI/tool_for_comparing_csv_data/tool_for_comparing_csv_data.py:92 | a label with no "d" followed by an "a" (in any case) is not a date column |
| Settings.DateAt | Intelligence_IQI/tool_for_comparing_csv_data/tool_for_comparing_csv_data.py:92 | a label with "date" (in any case) at some position is a date column |
| Settings.TwoKeyNames | Intelligence_IQI/tool_for_comparing_csv_data/tool_for_comparing_csv_data.py:103-122 | with two key sets the key columns are exactly `match_key_0` and `match_key_1`, the ones the log lines read |
| Settings.PreparedKeyed | Intelligence_IQI/tool_for_comparing_csv_data/tool_for_comparing_csv_data.py:101-105 | a file prepared with two key sets holds both key columns in every row |
| Settings.CompareFilesFacts | Intelligence_IQI/tool_for_comparing_csv_data/tool_for_comparing_csv_data.py:10-17 | with the corrected date parser, the configured keys, threshold 90 and tolerance 90: preparing cannot fail, matching raises only `OutOfBoundsDatetime` or `IndexError`, and every matched similarity lies in [90, 100] |
| Settings.NoEmptyKeySet | Intelligence_IQI/tool_for_comparing_csv_data/tool_for_comparing_csv_data.py:13-17 | no configured key set is empty in either file |
| Settings.File1AddressLabels | Intelligence_IQI/tool_for_comparing_csv_data/tool_for_comparing_csv_data.py:14 | none of the five file1 address labels contains "date" |
| Settings.File2AddressLabels | Intelligence_IQI/tool_for_comparing_csv_data/tool_for_comparing_csv_data.py:15 | none of the four file2 address labels contains "date" |
| Settings.File1DateColumns | Intelligence_IQI/tool_for_comparing_csv_data/tool_for_comparing_csv_data.py:13-17 | the only date column of file1's key sets is `sale_date` |
| Settings.File2DateColumns | Intelligence_IQI/tool_for_comparing_csv_data/tool_for_comparing_csv_data.py:13-17 | the only date column of file2's key sets is `Sale Date` |
| Settings.File1AsWritten | Intelligence_IQI/tool_for_comparing_csv_data/tool_for_comparing_csv_data.py:196 | preparing file1 as written raises `OverflowError` exactly when `sale_date` holds an infinite float, and otherwise equals the corrected preparation |
| Settings.File2AsWritten | Intelligence_IQI/tool_for_comparing_csv_data/tool_for_comparing_csv_data.py:197 | preparing file2 as written raises `OverflowError` exactly when `Sale Date` holds an infinite float, and otherwise equals the corrected preparation |
| Settings.CompareFilesAsWrittenFacts | Intelligence_IQI/tool_for_comparing_csv_data/tool_for_comparing_csv_data.py:192-206 | `main` as written, up to `match_data`: `OverflowError` exactly when file1's `sale_date` or file2's `Sale Date` holds an infinite float; otherwise `KeyError` when file1 has no `sale_date` column (the log read at :200), then when file2 has no `Sale Date` column (:203); otherwise what the corrected flow does |
| Settings.PreparedLabel | Intelligence_IQI/tool_for_comparing_csv_data/tool_for_comparing_csv_data.py:101-107 | a label that cannot be `__source` or a `match_key_` name is a column of the prepared frame exactly when it is a column of the input, so `df1_prepared[['sale_date']]` at :200 raises exactly when the file lacks `sale_date` |
| Calendar.DaysInMonth | Intelligence_IQI/tool_for_comparing_csv_data/tool_for_comparing_csv_data.py:68 | month lengths of the proleptic Gregorian calendar that `format='%Y%m%d'` validates against: 28 to 31, 29 in February exactly in leap years |
| Calendar.Successor | Intelligence_IQI/tool_for_comparing_csv_data/tool_for_comparing_csv_data.py:68 | the day after a valid date is a valid date |
| Calendar.EpochIsDayZero | Intelligence_IQI/tool_for_comparing_csv_data/tool_for_comparing_csv_data.py:68 | 1970-01-01 is day 0 of the `Timestamp` timeline |
| Calendar.YearLength | Intelligence_IQI/tool_for_comparing_csv_data/tool_for_comparing_csv_data.py:68 | a year has 366 days exactly when it is a leap year, else 365 |
| Calendar.SuccessorIsNextDay | Intelligence_IQI/tool_for_comparing_csv_data/tool_for_comparing_csv_data.py:68 | consecutive dates get consecutive day numbers |
| Calendar.DayDiff | Intelligence_IQI/tool_for_comparing_csv_data/tool_for_comparing_csv_data.py:139 | `Timedelta.days` of `a - b` is the floor of the difference in days |
| Calendar.MidnightDayDiff | Intelligence_IQI/tool_for_comparing_csv_data/tool_for_comparing_csv_data.py:139 | between two midnights, `.days` is the difference of the day numbers |
| Cells.PyEqProperties | Intelligence_IQI/tool_for_comparing_csv_data/tool_for_comparing_csv_data.py:177 | pandas `==` is symmetric, and a value equals itself exactly when it is not missing (so a NaN first value matches no row) |
| DateParsing.ParseCleaned | Intelligence_IQI/tool_for_comparing_csv_data/tool_for_comparing_csv_data.py:62-83 | the parse of the cleaned text is always NaT or a `Timestamp` |
| DateParsing.TryParseDate | Intelligence_IQI/tool_for_comparing_csv_data/tool_for_comparing_csv_data.py:43-83 | `try_parse_date`, with the integral-float test guarded: always returns NaT or a `Timestamp`, and NaT for every missing value |
| DateParsing.StrPath | Intelligence_IQI/tool_for_comparing_csv_data/tool_for_comparing_csv_data.py:54-55 | a string is stripped and has U+200B, U+00A0 and spaces removed before parsing |
| DateParsing.EightDigitsPath | Intelligence_IQI/tool_for_comparing_csv_data/tool_for_comparing_csv_data.py:67-68 | eight digits are parsed only by the strict `YYYYMMDD` format |
| DateParsing.AsWrittenRaisesOnlyOnInfinity | Intelligence_IQI/tool_for_comparing_csv_data/tool_for_comparing_csv_data.py:44-55 | the parser as written raises exactly on an infinite float, and agrees with the corrected parser on every other cell |
| DateParsing.InfinityRaises | Intelligence_IQI/tool_for_comparing_csv_data/tool_for_comparing_csv_data.py:51 | counterexample: `float('inf')` makes the written parser raise, while the corrected parser returns a value |
| DateParsing.BlankIsNaT | Intelligence_IQI/tool_for_comparing_csv_data/tool_for_comparing_csv_data.py:62-64 | text that is empty or reads "nan" (in any case) after cleaning is NaT |
| DateParsing.IntegralFloatAsDigits | Intelligence_IQI/tool_for_comparing_csv_data/tool_for_comparing_csv_data.py:50-52 | an integral float and the integer of the same value are parsed exactly like their decimal digits (`20250506.0` is read as "20250506") |
| DateParsing.DigitsCleanPaths | Intelligence_IQI/tool_for_comparing_csv_data/tool_for_comparing_csv_data.py:50-55 | a float, an integer and a digit string with the same digits reach the same cleaned text |
| DateParsing.FloatPath | Intelligence_IQI/tool_for_comparing_csv_data/tool_for_comparing_csv_data.py:51-52 | an integral float is cleaned to `str(int(x))` |
| DateParsing.IntPath | Intelligence_IQI/tool_for_comparing_csv_data/tool_for_comparing_csv_data.py:53-55 | an integer is cleaned from `str(x)` |
| DateParsing.InvalidCalendarIsNaT | Intelligence_IQI/tool_for_comparing_csv_data/tool_for_comparing_csv_data.py:67-79 | eight digits whose month or day is out of range give NaT (`errors='coerce'`), not an exception |
| DateParsing.DigitsClean | Intelligence_IQI/tool_for_comparing_csv_data/tool_for_comparing_csv_data.py:54-55 | cleaning leaves a digit string unchanged |
| DateParsing.StrictRoundTrip | Intelligence_IQI/tool_for_comparing_csv_data/tool_for_comparing_csv_data.py:67-68 | reading back the `YYYYMMDD` text of a date with a four-digit year gives that date's midnight, whenever pandas can represent it |
| DateParsing.Pad2Value | Intelligence_IQI/tool_for_comparing_csv_data/tool_for_comparing_csv_data.py:68 | the two-digit `%m`/`%d` rendering reads back as its number |
| DateParsing.FloatDateExample | Intelligence_IQI/tool_for_comparing_csv_data/tool_for_comparing_csv_data.py:50 | the example in the source: `20250506.0` becomes the midnight of 2025-05-06 |
| DateParsing.ExampleDigits | Intelligence_IQI/tool_for_comparing_csv_data/tool_for_comparing_csv_data.py:50 | the digits of 20250506 are the `YYYYMMDD` text of 2025-05-06 |
| DateParsing.ExampleInRange | Intelligence_IQI/tool_for_comparing_csv_data/tool_for_comparing_csv_data.py:50 | 2025-05-06 is a valid date, day 20214 of the timeline |
| DateParsing.MonthThirteenExample | Intelligence_IQI/tool_for_comparing_csv_data/tool_for_comparing_csv_data.py:67-68 | "20251301" (month 13) is NaT |
| Frames.WithColumn | Intelligence_IQI/tool_for_comparing_csv_data/tool_for_comparing_csv_data.py:97-105 | `df[name] = values` keeps an existing column's place and appends a new one; every row gets its value and keeps the rest |
| Frames.ColumnAfterAssign | Intelligence_IQI/tool_for_comparing_csv_data/tool_for_comparing_csv_data.py:85 | after `df[col] = values`, `df[col]` reads back exactly `values`, and every other column reads as before |
| Frames.WithColumnDistinct | Intelligence_IQI/tool_for_comparing_csv_data/tool_for_comparing_csv_data.py:103-107 | assigning a column never duplicates a label |
| Frames.Broadcast | Intelligence_IQI/tool_for_comparing_csv_data/tool_for_comparing_csv_data.py:103-107 | `df[name] = scalar` puts the value in every row |
| Frames.RestrictFacts | Intelligence_IQI/tool_for_comparing_csv_data/find_unmatched_transactions.py:92 | keeping a row's columns `cols` twice is keeping them once; keeping all of a row's columns changes nothing; keeping only absent columns gives an empty row; the order of the listed columns does not matter |
| Frames.Frame.constructor | Intelligence_IQI/tool_for_comparing_csv_data/tool_for_comparing_csv_data.py:91 | a frame holds the given table |
| Frames.Frame.Copy | Intelligence_IQI/tool_for_comparing_csv_data/tool_for_comparing_csv_data.py:91 | `df.copy()` is a fresh frame with the same contents |
| Frames.Frame.Assign | Intelligence_IQI/tool_for_comparing_csv_data/tool_for_comparing_csv_data.py:97-107 | `df[name] = values` in place: the new contents are the table with that column assigned |
| Prepare.DateColumnsOfMembers | Intelligence_IQI/tool_for_comparing_csv_data/tool_for_comparing_csv_data.py:92 | the date labels of a list are exactly its labels that contain "date" |
| Prepare.WithoutMembers | Intelligence_IQI/tool_for_comparing_csv_data/tool_for_comparing_csv_data.py:93 | filtering out a list keeps exactly the labels not in it |
| Prepare.DateColumnsOfAppend | Intelligence_IQI/tool_for_comparing_csv_data/tool_for_comparing_csv_data.py:92 | `all_date_cols` of two label lists one after the other is the first list's date columns, then the second's |
| Prepare.DateColumnsOfNone | Intelligence_IQI/tool_for_comparing_csv_data/tool_for_comparing_csv_data.py:92 | labels none of which contains "date" give no date column |
| Prepare.ColumnClassification | Intelligence_IQI/tool_for_comparing_csv_data/tool_for_comparing_csv_data.py:92-93 | every configured label is in `all_date_cols` exactly when it contains "date", and in `all_str_cols` exactly when it does not |
| Prepare.FieldText | Intelligence_IQI/tool_for_comparing_csv_data/tool_for_comparing_csv_data.py:97 | `fillna('').astype(str).str.strip().str.lower()` of a cell is stripped and has no capital |
| Prepare.FieldTextIdempotent | Intelligence_IQI/tool_for_comparing_csv_data/tool_for_comparing_csv_data.py:97 | normalising an already normalised string column changes nothing |
| Prepare.StringStep | Intelligence_IQI/tool_for_comparing_csv_data/tool_for_comparing_csv_data.py:96-97 | one string column normalised: same columns, same number of rows |
| Prepare.StringPhase | Intelligence_IQI/tool_for_comparing_csv_data/tool_for_comparing_csv_data.py:95-97 | the string loop keeps the columns and the number of rows |
| Prepare.DateStep | Intelligence_IQI/tool_for_comparing_csv_data/tool_for_comparing_csv_data.py:85 | one date column parsed: same columns, same number of rows |
| Prepare.DatePhase | Intelligence_IQI/tool_for_comparing_csv_data/tool_for_comparing_csv_data.py:37-86 | `normalize_dates` keeps the columns and the number of rows |
| Prepare.NormalizeDates | Intelligence_IQI/tool_for_comparing_csv_data/tool_for_comparing_csv_data.py:37-86 | the loop of `normalize_dates`, in place: the new contents are `DatePhase` of the old |
| Prepare.AddressPart | Intelligence_IQI/tool_for_comparing_csv_data/tool_for_comparing_csv_data.py:33-34 | one column contributes at most one slot to the address key |
| Prepare.AddressParts | Intelligence_IQI/tool_for_comparing_csv_data/tool_for_comparing_csv_data.py:32-35 | the address key has at most one slot per configured column |
| Prepare.MatchKeyNames | Intelligence_IQI/tool_for_comparing_csv_data/tool_for_comparing_csv_data.py:103-105 | the key columns are `match_key_0` .. `match_key_{n-1}`, in order |
| Prepare.KeyColumn | Intelligence_IQI/tool_for_comparing_csv_data/tool_for_comparing_csv_data.py:102-105 | a key set yields one value per row, and fails (with `IndexError`) exactly when it is empty |
| Prepare.KeyPhase | Intelligence_IQI/tool_for_comparing_csv_data/tool_for_comparing_csv_data.py:101-105 | the key loop keeps the table well-formed and the number of rows |
| Prepare.Normalized | Intelligence_IQI/tool_for_comparing_csv_data/tool_for_comparing_csv_data.py:95-99 | the string and date normalisation keeps the columns and the number of rows |
| Prepare.Prepared | Intelligence_IQI/tool_for_comparing_csv_data/tool_for_comparing_csv_data.py:90-108 | `prepare_df` with the corrected date parser keeps the number of rows |
| Prepare.KeyPhaseFailureSticks | Intelligence_IQI/tool_for_comparing_csv_data/tool_for_comparing_csv_data.py:101-105 | once a key set raises, the rest of the loop raises the same exception |
| Prepare.NormalizeStrings | Intelligence_IQI/tool_for_comparing_csv_data/tool_for_comparing_csv_data.py:95-97 | the string loop, in place: the new contents are `StringPhase` of the old |
| Prepare.KeyPhaseStep | Intelligence_IQI/tool_for_comparing_csv_data/tool_for_comparing_csv_data.py:101-105 | one pass of the key loop assigns `match_key_i` |
| Prepare.AddKeys | Intelligence_IQI/tool_for_comparing_csv_data/tool_for_comparing_csv_data.py:101-105 | the key loop, in place: it succeeds exactly when `KeyPhase` does, leaves its result in the frame, and otherwise reports `IndexError` |
| Prepare.PrepareFrame | Intelligence_IQI/tool_for_comparing_csv_data/tool_for_comparing_csv_data.py:90-108 | `prepare_df` with the corrected date parser: the caller's frame is unchanged (it works on a copy), and the result is `Prepared` of its contents |
| Prepare.AddressPartsAppend | Intelligence_IQI/tool_for_comparing_csv_data/tool_for_comparing_csv_data.py:32-35 | the slots of `a + b` are those of `a` followed by those of `b` |
| Prepare.AddressPartValue | Intelligence_IQI/tool_for_comparing_csv_data/tool_for_comparing_csv_data.py:33-34 | a column fills a slot exactly when it is present, not null and not "NaT", with its stripped, lower-cased `str` |
| Prepare.AddressPartSize | Intelligence_IQI/tool_for_comparing_csv_data/tool_for_comparing_csv_data.py:34 | a column fills exactly one slot when present, not null and not "NaT", and none otherwise |
| Prepare.AddressPartsSingle | Intelligence_IQI/tool_for_comparing_csv_data/tool_for_comparing_csv_data.py:32-35 | a single column's slots are its own slot |
| Prepare.AddressSlots | Intelligence_IQI/tool_for_comparing_csv_data/tool_for_comparing_csv_data.py:32-35 | every configured column fills a slot exactly when each one is present, not null and not "NaT" |
| Prepare.AddressPartsNormal | Intelligence_IQI/tool_for_comparing_csv_data/tool_for_comparing_csv_data.py:33 | every slot is stripped and has no capital letter |
| Prepare.AddressKeyLower | Intelligence_IQI/tool_for_comparing_csv_data/tool_for_comparing_csv_data.py:32-35 | the address key has no capital letter |
| Prepare.AddressPartsAgree | Intelligence_IQI/tool_for_comparing_csv_data/tool_for_comparing_csv_data.py:32-35 | two rows that agree on the configured columns give the same address key |
| Prepare.NormalPart | Intelligence_IQI/tool_for_comparing_csv_data/tool_for_comparing_csv_data.py:33-34 | a present, already normalised text field contributes itself |
| Prepare.PartBetween | Intelligence_IQI/tool_for_comparing_csv_data/tool_for_comparing_csv_data.py:32-35 | a column's slot sits between the slots of the columns before and after it |
| Prepare.EmptyFieldKeepsSlot | Intelligence_IQI/tool_for_comparing_csv_data/tool_for_comparing_csv_data.py:34 | an empty string field still fills a slot, so both separators stay (a double space) |
| Prepare.AbsentColumnSkipped | Intelligence_IQI/tool_for_comparing_csv_data/tool_for_comparing_csv_data.py:34 | an absent column contributes nothing |
| Prepare.StringPhaseValue | Intelligence_IQI/tool_for_comparing_csv_data/tool_for_comparing_csv_data.py:95-97 | after the string loop, a listed column holds its normalised text (however often it is listed), and every other column is untouched |
| Prepare.StringStepValue | Intelligence_IQI/tool_for_comparing_csv_data/tool_for_comparing_csv_data.py:97 | one string pass changes only its column |
| Prepare.DateStepValue | Intelligence_IQI/tool_for_comparing_csv_data/tool_for_comparing_csv_data.py:85 | one date pass replaces its column by `try_parse_date` of it |
| Prepare.DatePhaseValue | Intelligence_IQI/tool_for_comparing_csv_data/tool_for_comparing_csv_data.py:38-85 | after `normalize_dates` a column has been parsed once per time it is listed |
| Prepare.KeyPhaseFailure | Intelligence_IQI/tool_for_comparing_csv_data/tool_for_comparing_csv_data.py:102-103 | the key loop fails exactly when an empty key set is reached, with `IndexError` |
| Prepare.KeyPhaseColumns | Intelligence_IQI/tool_for_comparing_csv_data/tool_for_comparing_csv_data.py:101-105 | after `n` key sets the columns are the original ones and `match_key_0` .. `match_key_{n-1}` |
| Prepare.KeyStepColumns | Intelligence_IQI/tool_for_comparing_csv_data/tool_for_comparing_csv_data.py:103-105 | a pass of the key loop keeps every column and adds its key |
| Prepare.KeyPhasePrefix | Intelligence_IQI/tool_for_comparing_csv_data/tool_for_comparing_csv_data.py:101-105 | a loop that got through `n` key sets got through every shorter prefix |
| Prepare.KeyStepKeeps | Intelligence_IQI/tool_for_comparing_csv_data/tool_for_comparing_csv_data.py:103-105 | one pass of the key loop leaves every other column alone |
| Prepare.KeyPhaseKeeps | Intelligence_IQI/tool_for_comparing_csv_data/tool_for_comparing_csv_data.py:101-105 | a column is left alone by every later key set whose key name differs from it |
| Prepare.MatchKeyNamesDistinct | Intelligence_IQI/tool_for_comparing_csv_data/tool_for_comparing_csv_data.py:103-105 | `match_key_i` and `match_key_j` differ when `i != j` |
| Prepare.MatchKeyNamePrefix | Intelligence_IQI/tool_for_comparing_csv_data/tool_for_comparing_csv_data.py:103-115 | every key column starts with `match_key`, so `match_data` treats it as a non-original column |
| Prepare.KeyStepValue | Intelligence_IQI/tool_for_comparing_csv_data/tool_for_comparing_csv_data.py:102-105 | pass `i` of the key loop stores the key of its key set, computed on the table it receives |
| Prepare.KeyValueStable | Intelligence_IQI/tool_for_comparing_csv_data/tool_for_comparing_csv_data.py:101-105 | earlier passes do not change what key set `i` computes, when it names no `match_key_` column |
| Prepare.KeyPhaseKey | Intelligence_IQI/tool_for_comparing_csv_data/tool_for_comparing_csv_data.py:101-105 | after the loop, `match_key_i` holds, in every row, the key of key set `i` computed on the normalised table |
| Prepare.KeyKeptAfter | Intelligence_IQI/tool_for_comparing_csv_data/tool_for_comparing_csv_data.py:101-105 | key `i`, once stored, is left alone by the later passes |
| Prepare.PreparedFailure | Intelligence_IQI/tool_for_comparing_csv_data/tool_for_comparing_csv_data.py:90-108 | with the corrected date parser, `prepare_df` fails exactly when some key set is empty, with `IndexError` |
| Prepare.PreparedColumns | Intelligence_IQI/tool_for_comparing_csv_data/tool_for_comparing_csv_data.py:90-108 | the prepared columns are the original ones, one `match_key_i` per key set, and `__source` |
| Prepare.PreparedSource | Intelligence_IQI/tool_for_comparing_csv_data/tool_for_comparing_csv_data.py:107 | every prepared row carries the file's label in `__source` |
| Prepare.PreparedValue | Intelligence_IQI/tool_for_comparing_csv_data/tool_for_comparing_csv_data.py:95-99 | every other column of a prepared row holds its normalised value |
| Prepare.PreparedKey | Intelligence_IQI/tool_for_comparing_csv_data/tool_for_comparing_csv_data.py:101-105 | every prepared row's `match_key_i` is the key of key set `i` |
| Prepare.ParsedAsWritten | Intelligence_IQI/tool_for_comparing_csv_data/tool_for_comparing_csv_data.py:85 | the written `apply` of `try_parse_date`, when it returns, gives one cell per input cell |
| Prepare.ParsedAsWrittenMeaning | Intelligence_IQI/tool_for_comparing_csv_data/tool_for_comparing_csv_data.py:51-85 | the written `apply` raises `OverflowError` exactly when a cell is an infinite float; otherwise every cell is parsed as the corrected parser parses it |
| Prepare.DateStepAsWritten | Intelligence_IQI/tool_for_comparing_csv_data/tool_for_comparing_csv_data.py:85 | one written pass of the date loop keeps the columns and the number of rows when it returns |
| Prepare.DateStepAsWrittenMeaning | Intelligence_IQI/tool_for_comparing_csv_data/tool_for_comparing_csv_data.py:85 | one written pass raises `OverflowError` exactly when its column holds an infinite float, and otherwise equals the corrected pass |
| Prepare.DatePhaseAsWritten | Intelligence_IQI/tool_for_comparing_csv_data/tool_for_comparing_csv_data.py:37-86 | written `normalize_dates` keeps the columns and the number of rows when it returns |
| Prepare.ParsedNotInfinite | Intelligence_IQI/tool_for_comparing_csv_data/tool_for_comparing_csv_data.py:43-83 | a parsed cell is never an infinite float |
| Prepare.LastColumnInfinite | Intelligence_IQI/tool_for_comparing_csv_data/tool_for_comparing_csv_data.py:37-86 | an infinite float is met in a later column of the date loop exactly when the input table held one there |
| Prepare.DatePhaseAsWrittenMeaning | Intelligence_IQI/tool_for_comparing_csv_data/tool_for_comparing_csv_data.py:37-86 | written `normalize_dates` raises `OverflowError` exactly when one of its columns holds an infinite float, and otherwise equals the corrected loop |
| Prepare.StringPhaseKeepsInfinite | Intelligence_IQI/tool_for_comparing_csv_data/tool_for_comparing_csv_data.py:95-97 | the string loop leaves the date columns alone, so it neither adds nor removes an infinite float there |
| Prepare.PreparedAsWrittenMeaning | Intelligence_IQI/tool_for_comparing_csv_data/tool_for_comparing_csv_data.py:90-108 | written `prepare_df` raises `OverflowError` exactly when a configured date column holds an infinite float, and otherwise returns what the corrected `prepare_df` returns |
| Prepare.PreparedAsWrittenFailure | Intelligence_IQI/tool_for_comparing_csv_data/tool_for_comparing_csv_data.py:90-108 | written `prepare_df` fails exactly on an infinite float in a date column (`OverflowError`) or on an empty key set (`IndexError`), the float taking precedence |
| Matching.KeyScore | Intelligence_IQI/tool_for_comparing_csv_data/tool_for_comparing_csv_data.py:128-146 | a key score lies in [0, 100]; it fails exactly when two timestamps differ by more than `Timedelta` can hold, with `OutOfBoundsDatetime` |
| Matching.PairScores | Intelligence_IQI/tool_for_comparing_csv_data/tool_for_comparing_csv_data.py:125-146 | the scores of the first `n` keys: `n` values in [0, 100] |
| Matching.SumBounds | Intelligence_IQI/tool_for_comparing_csv_data/tool_for_comparing_csv_data.py:148 | the sum of `n` scores in [0, 100] lies in [0, 100n] |
| Matching.MeanBounds | Intelligence_IQI/tool_for_comparing_csv_data/tool_for_comparing_csv_data.py:148 | the mean of such scores lies in [0, 100] |
| Matching.PairAverage | Intelligence_IQI/tool_for_comparing_csv_data/tool_for_comparing_csv_data.py:148 | the mean score lies in [0, 100]; with all scores computed, it fails only by `ZeroDivisionError` when `num_keys <= 0` |
| Matching.Round2 | Intelligence_IQI/tool_for_comparing_csv_data/tool_for_comparing_csv_data.py:162 | `round(x, 2)` is within half a hundredth of `x` |
| Matching.RowPairs | Intelligence_IQI/tool_for_comparing_csv_data/tool_for_comparing_csv_data.py:124-163 | every pair of the inner loop for row `i` names row `i` and a file2 row below `m` |
| Matching.ScanRows | Intelligence_IQI/tool_for_comparing_csv_data/tool_for_comparing_csv_data.py:118-167 | every unmatched position is a file1 row below `n` |
| Matching.OriginalColumns | Intelligence_IQI/tool_for_comparing_csv_data/tool_for_comparing_csv_data.py:115-116 | the original columns are exactly those that neither start with `match_key` nor are `__source` |
| Matching.Records | Intelligence_IQI/tool_for_comparing_csv_data/tool_for_comparing_csv_data.py:156-163 | one record per matched pair |
| Matching.RowsAt | Intelligence_IQI/tool_for_comparing_csv_data/tool_for_comparing_csv_data.py:170-181 | one restricted row per position |
| Matching.RowsOf | Intelligence_IQI/tool_for_comparing_csv_data/tool_for_comparing_csv_data.py:166 | one whole row per unmatched position |
| Matching.KeptIndices | Intelligence_IQI/tool_for_comparing_csv_data/tool_for_comparing_csv_data.py:174-180 | the kept file2 positions lie below `n` |
| Matching.PairScoresSticks | Intelligence_IQI/tool_for_comparing_csv_data/tool_for_comparing_csv_data.py:127-146 | a key that raises ends the key loop with that exception |
| Matching.RowPairsSticks | Intelligence_IQI/tool_for_comparing_csv_data/tool_for_comparing_csv_data.py:124-163 | an exception in the inner loop is its result |
| Matching.ScanRowsSticks | Intelligence_IQI/tool_for_comparing_csv_data/tool_for_comparing_csv_data.py:118-167 | an exception in the outer loop is its result |
| Matching.RowFailure | Intelligence_IQI/tool_for_comparing_csv_data/tool_for_comparing_csv_data.py:118-167 | an exception in pass `i` of the outer loop is the exception of the whole loop |
| Matching.RowPairsSkip | Intelligence_IQI/tool_for_comparing_csv_data/tool_for_comparing_csv_data.py:150 | a pair below the threshold adds nothing |
| Matching.RowPairsAdd | Intelligence_IQI/tool_for_comparing_csv_data/tool_for_comparing_csv_data.py:150-163 | an accepted pair is added, after its keys are read again for the log |
| Matching.RowPairsRaise | Intelligence_IQI/tool_for_comparing_csv_data/tool_for_comparing_csv_data.py:147-154 | an exception in one step of the inner loop ends it with that exception |
| Matching.ScanRowsStep | Intelligence_IQI/tool_for_comparing_csv_data/tool_for_comparing_csv_data.py:118-167 | one step of the outer loop appends the row's pairs, and the row itself when it found none |
| Matching.RecordsAppend | Intelligence_IQI/tool_for_comparing_csv_data/tool_for_comparing_csv_data.py:163 | the records of two runs of pairs follow one another |
| Matching.RecordsSnoc | Intelligence_IQI/tool_for_comparing_csv_data/tool_for_comparing_csv_data.py:163 | `matched.append(match)` appends the pair's record |
| Matching.RowsAtSnoc | Intelligence_IQI/tool_for_comparing_csv_data/tool_for_comparing_csv_data.py:166 | appending a position appends its restricted row |
| Matching.ScoreKeys | Intelligence_IQI/tool_for_comparing_csv_data/tool_for_comparing_csv_data.py:125-146 | the key loop computes exactly `PairScores` |
| Matching.AverageScore | Intelligence_IQI/tool_for_comparing_csv_data/tool_for_comparing_csv_data.py:125-148 | the key loop and the mean compute exactly `PairAverage` |
| Matching.MatchRow | Intelligence_IQI/tool_for_comparing_csv_data/tool_for_comparing_csv_data.py:119-167 | one pass of the outer loop: the records of exactly the pairs `RowScan` accepts, with `found_match` true exactly when there is one |
| Matching.UnmatchedFile2 | Intelligence_IQI/tool_for_comparing_csv_data/tool_for_comparing_csv_data.py:174-181 | exactly the file2 rows at the kept positions, restricted to the original columns |
| Matching.UnmatchedFile1 | Intelligence_IQI/tool_for_comparing_csv_data/tool_for_comparing_csv_data.py:170-171 | the unmatched file1 rows, restricted to the original columns |
| Matching.RowsOfIndex | Intelligence_IQI/tool_for_comparing_csv_data/tool_for_comparing_csv_data.py:166 | the `k`-th unmatched row is the row at the `k`-th position |
| Matching.RowsOfSnoc | Intelligence_IQI/tool_for_comparing_csv_data/tool_for_comparing_csv_data.py:166 | `unmatched_rows_file1.append(row1)` appends that row |
| Matching.ScanFile1 | Intelligence_IQI/tool_for_comparing_csv_data/tool_for_comparing_csv_data.py:118-167 | the nested loop computes exactly `ScanRows`: its records and unmatched rows, or its exception |
| Matching.MatchData | Intelligence_IQI/tool_for_comparing_csv_data/tool_for_comparing_csv_data.py:111-183 | `match_data` computes exactly `MatchResult` |
| MatchingFacts.RowPairsExact | Intelligence_IQI/tool_for_comparing_csv_data/tool_for_comparing_csv_data.py:124-163 | the inner loop keeps exactly the file2 rows whose mean score reaches the threshold, each with that mean |
| MatchingFacts.RowPairsOrdered | Intelligence_IQI/tool_for_comparing_csv_data/tool_for_comparing_csv_data.py:124-163 | the inner loop lists its pairs in file2 row order |
| MatchingFacts.RowScanEmpty | Intelligence_IQI/tool_for_comparing_csv_data/tool_for_comparing_csv_data.py:119-166 | a pass adds exactly the accepted pairs of its row, and none exactly when the row matches nothing |
| MatchingFacts.ScanRowsPairs | Intelligence_IQI/tool_for_comparing_csv_data/tool_for_comparing_csv_data.py:118-163 | the outer loop collects exactly the accepted pairs of all file1 rows |
| MatchingFacts.ScanRowsUnmatched | Intelligence_IQI/tool_for_comparing_csv_data/tool_for_comparing_csv_data.py:118-166 | a file1 row is unmatched exactly when it matches no file2 row |
| MatchingFacts.ScanRowsPairsBelow | Intelligence_IQI/tool_for_comparing_csv_data/tool_for_comparing_csv_data.py:118-163 | every pair names a file1 row that was scanned |
| MatchingFacts.ScanRowsPairsOrdered | Intelligence_IQI/tool_for_comparing_csv_data/tool_for_comparing_csv_data.py:118-163 | pairs come in file1 row order, and within a row in file2 row order |
| MatchingFacts.ScanRowsUnmatchedOrdered | Intelligence_IQI/tool_for_comparing_csv_data/tool_for_comparing_csv_data.py:165-166 | unmatched rows are listed in increasing order |
| MatchingFacts.RowPairsThreshold | Intelligence_IQI/tool_for_comparing_csv_data/tool_for_comparing_csv_data.py:150-154 | raising the threshold cannot make the inner loop raise |
| MatchingFacts.ScanRowsThresholdSucceeds | Intelligence_IQI/tool_for_comparing_csv_data/tool_for_comparing_csv_data.py:118-166 | raising the threshold cannot make the outer loop raise |
| MatchingFacts.NoMatchThreshold | Intelligence_IQI/tool_for_comparing_csv_data/tool_for_comparing_csv_data.py:150 | a row that matches nothing still matches nothing under a higher threshold |
| MatchingFacts.ScanRowsThreshold | Intelligence_IQI/tool_for_comparing_csv_data/tool_for_comparing_csv_data.py:150-166 | a higher threshold succeeds whenever a lower one does, matches a subset of the pairs and leaves a superset of the rows unmatched |
| MatchingFacts.Round2Percent | Intelligence_IQI/tool_for_comparing_csv_data/tool_for_comparing_csv_data.py:162 | `round(x, 2)` keeps a percentage within [0, 100] |
| MatchingFacts.Round2AtLeast | Intelligence_IQI/tool_for_comparing_csv_data/tool_for_comparing_csv_data.py:150-162 | a value at or above a whole number of hundredths stays there after `round(x, 2)` |
| MatchingFacts.RecordsIndex | Intelligence_IQI/tool_for_comparing_csv_data/tool_for_comparing_csv_data.py:156-163 | record `k` is the record of pair `k` |
| MatchingFacts.MatchedSimilarity | Intelligence_IQI/tool_for_comparing_csv_data/tool_for_comparing_csv_data.py:150-162 | with a threshold of whole hundredths, every matched similarity lies between the threshold and 100 |
| MatchingFacts.DroppedByShared | Intelligence_IQI/tool_for_comparing_csv_data/tool_for_comparing_csv_data.py:174-178 | a file2 row is dropped exactly when some record carries an equal value in file2's first original column |
| MatchingFacts.MissingValueKept | Intelligence_IQI/tool_for_comparing_csv_data/tool_for_comparing_csv_data.py:177 | a file2 row whose first original value is missing (absent, NaN, NaT or None) is never dropped, since NaN equals nothing |
| MatchingFacts.KeptExact | Intelligence_IQI/tool_for_comparing_csv_data/tool_for_comparing_csv_data.py:174-180 | `df2.drop(index=...)` keeps exactly the rows that are not dropped |
| MatchingFacts.KeptOrdered | Intelligence_IQI/tool_for_comparing_csv_data/tool_for_comparing_csv_data.py:180 | the kept rows stay in file2 order |
| MatchingFacts.KeptAll | Intelligence_IQI/tool_for_comparing_csv_data/tool_for_comparing_csv_data.py:174-180 | with no records, every file2 row is kept |
| MatchingFacts.RowsAtIndex | Intelligence_IQI/tool_for_comparing_csv_data/tool_for_comparing_csv_data.py:171-181 | output row `k` is the row at position `k`, restricted |
| MatchingFacts.EmptyFile1 | Intelligence_IQI/tool_for_comparing_csv_data/tool_for_comparing_csv_data.py:111-183 | an empty file1 matches nothing and returns every file2 row without the key and label columns |
| MatchingFacts.MissingFirstKey | Intelligence_IQI/tool_for_comparing_csv_data/tool_for_comparing_csv_data.py:121 | a file1 row without `match_key_0` raises `KeyError('match_key_0')` |
| MatchingFacts.NoKeysDivideByZero | Intelligence_IQI/tool_for_comparing_csv_data/tool_for_comparing_csv_data.py:148 | with `num_keys <= 0` the first pair raises `ZeroDivisionError` |
| MatchingFacts.PairScoresError | Intelligence_IQI/tool_for_comparing_csv_data/tool_for_comparing_csv_data.py:128-139 | an exception of the key loop is `OutOfBoundsDatetime` or a `KeyError` for a key column one row lacks |
| MatchingFacts.RowPairsError | Intelligence_IQI/tool_for_comparing_csv_data/tool_for_comparing_csv_data.py:124-154 | an exception of the inner loop is `OutOfBoundsDatetime`, `ZeroDivisionError` with `num_keys <= 0`, or a `KeyError` for a key column that a row lacks |
| MatchingFacts.ScanRowsError | Intelligence_IQI/tool_for_comparing_csv_data/tool_for_comparing_csv_data.py:118-154 | the same, for the whole nested loop |
| MatchingFacts.MatchErrors | Intelligence_IQI/tool_for_comparing_csv_data/tool_for_comparing_csv_data.py:111-183 | `match_data` raises only `OutOfBoundsDatetime` (a date difference too large), `ZeroDivisionError` (no keys), `IndexError` (file2 has no original column) or a `KeyError` for a key column some row lacks |
| MatchingFacts.KeyedErrors | Intelligence_IQI/tool_for_comparing_csv_data/tool_for_comparing_csv_data.py:111-183 | with at least one key and every key column present, only `OutOfBoundsDatetime` or `IndexError` can escape |
| MatchingFacts.KeyScoreMidnights | Intelligence_IQI/tool_for_comparing_csv_data/tool_for_comparing_csv_data.py:134-141 | two midnights score 100 exactly when their calendar days are within the tolerance, in either order |
| MatchingFacts.KeyScoreOrderMatters | Intelligence_IQI/tool_for_comparing_csv_data/tool_for_comparing_csv_data.py:139-141 | two stamps less than a day apart: later minus earlier is day 0 and scores 100; earlier minus later is day -1 and scores 100 only with a tolerance of at least 1 |
| MatchingFacts.NaTScoredAsText | Intelligence_IQI/tool_for_comparing_csv_data/tool_for_comparing_csv_data.py:131-146 | a missing date (`NaT`, not a `Timestamp`) against a parsed date is scored by the token-sort ratio of their `str`, not 0 |
| States.CodesOnly0 | Intelligence_IQI/tool_for_comparing_csv_data/find_unmatched_transactions.py:54-57 | the first ten entries of `STATE_ABBREVIATIONS` all map to two capital letters |
| States.NoTwoLetterName0 | Intelligence_IQI/tool_for_comparing_csv_data/find_unmatched_transactions.py:54-57 | no two-letter text is one of the first ten names |
| States.CodesOnly1 | Intelligence_IQI/tool_for_comparing_csv_data/find_unmatched_transactions.py:57-59 | the first twenty entries map to two capital letters |
| States.NoTwoLetterName1 | Intelligence_IQI/tool_for_comparing_csv_data/find_unmatched_transactions.py:57-59 | no two-letter text is one of the first twenty names |
| States.CodesOnly2 | Intelligence_IQI/tool_for_comparing_csv_data/find_unmatched_transactions.py:59-61 | the first thirty entries map to two capital letters |
| States.NoTwoLetterName2 | Intelligence_IQI/tool_for_comparing_csv_data/find_unmatched_transactions.py:59-61 | no two-letter text is one of the first thirty names |
| States.CodesOnly3 | Intelligence_IQI/tool_for_comparing_csv_data/find_unmatched_transactions.py:62-64 | the first forty entries map to two capital letters |
| States.NoTwoLetterName3 | Intelligence_IQI/tool_for_comparing_csv_data/find_unmatched_transactions.py:62-64 | no two-letter text is one of the first forty names |
| States.CodesOnly4 | Intelligence_IQI/tool_for_comparing_csv_data/find_unmatched_transactions.py:54-67 | every value of `STATE_ABBREVIATIONS` is two capital letters |
| States.NoTwoLetterName4 | Intelligence_IQI/tool_for_comparing_csv_data/find_unmatched_transactions.py:54-67 | no two-letter text is a key of `STATE_ABBREVIATIONS` |
| States.CodeFacts | Intelligence_IQI/tool_for_comparing_csv_data/find_unmatched_transactions.py:54-67 | a code is stripped, upper case, and names no state |
| States.FullNameMaps | Intelligence_IQI/tool_for_comparing_csv_data/find_unmatched_transactions.py:69-70 | a state name in any case, with whitespace around it, becomes its code |
| States.UnmappedKept | Intelligence_IQI/tool_for_comparing_csv_data/find_unmatched_transactions.py:70 | text that names no state comes back stripped and upper-cased |
| States.NormalizedShape | Intelligence_IQI/tool_for_comparing_csv_data/find_unmatched_transactions.py:70 | the result of `normalize_state` is always stripped and upper case |
| States.NormalizeStateIdempotent | Intelligence_IQI/tool_for_comparing_csv_data/find_unmatched_transactions.py:69-70 | normalising twice gives the same as normalising once |
| AddressQuery.FirstAbsent | Intelligence_IQI/tool_for_comparing_csv_data/find_unmatched_transactions.py:87-88 | the position of the first required label that is absent: every earlier one is present |
| AddressQuery.CheckColumns | Intelligence_IQI/tool_for_comparing_csv_data/find_unmatched_transactions.py:86-90 | the column check loop reports exactly `MissingRequired` |
| AddressQuery.MissingRequiredMeaning | Intelligence_IQI/tool_for_comparing_csv_data/find_unmatched_transactions.py:86-90 | nothing is reported exactly when all four columns are present; a reported column is required and absent |
| AddressQuery.CompletePositions | Intelligence_IQI/tool_for_comparing_csv_data/find_unmatched_transactions.py:92 | every kept position is a complete row |
| AddressQuery.DropIncomplete | Intelligence_IQI/tool_for_comparing_csv_data/find_unmatched_transactions.py:92 | every row `dropna` keeps is complete |
| AddressQuery.CompletePositionsExact | Intelligence_IQI/tool_for_comparing_csv_data/find_unmatched_transactions.py:92 | `dropna` keeps exactly the rows whose four fields are present and not missing |
| AddressQuery.NoCompletePositions | Intelligence_IQI/tool_for_comparing_csv_data/find_unmatched_transactions.py:92 | without a complete row nothing is kept |
| AddressQuery.CompletePositionsOrdered | Intelligence_IQI/tool_for_comparing_csv_data/find_unmatched_transactions.py:92 | kept rows stay in file order |
| AddressQuery.NormalizedRow | Intelligence_IQI/tool_for_comparing_csv_data/find_unmatched_transactions.py:93 | normalising a row's state keeps its four fields |
| AddressQuery.NormalizedStates | Intelligence_IQI/tool_for_comparing_csv_data/find_unmatched_transactions.py:93 | the `apply` keeps the number of rows and their fields |
| AddressQuery.NormalizedStatesMeaning | Intelligence_IQI/tool_for_comparing_csv_data/find_unmatched_transactions.py:93 | the `apply` succeeds exactly when every state is text (else `AttributeError`); each state becomes its normal form, stripped and upper case; other fields are unchanged; a second `apply` changes nothing |
| AddressQuery.ClauseFields | Intelligence_IQI/tool_for_comparing_csv_data/find_unmatched_transactions.py:103 | city, zip code and street stand verbatim at fixed offsets of the clause |
| AddressQuery.RowClause | Intelligence_IQI/tool_for_comparing_csv_data/find_unmatched_transactions.py:98-103 | a clause is built exactly when city, state and address are text |
| AddressQuery.RowClauseFields | Intelligence_IQI/tool_for_comparing_csv_data/find_unmatched_transactions.py:98-103 | a clause's city and street are stripped and lower case, and its zip code is stripped |
| AddressQuery.BuildConditions | Intelligence_IQI/tool_for_comparing_csv_data/find_unmatched_transactions.py:96-104 | the clause loop computes exactly `Conditions` |
| AddressQuery.CollectSticks | Intelligence_IQI/tool_for_comparing_csv_data/find_unmatched_transactions.py:97-104 | an exception ends the loop with that exception |
| AddressQuery.CollectSuccess | Intelligence_IQI/tool_for_comparing_csv_data/find_unmatched_transactions.py:97-104 | the loop succeeds exactly when every pass does, and then keeps every value in order |
| AddressQuery.CollectFailure | Intelligence_IQI/tool_for_comparing_csv_data/find_unmatched_transactions.py:97-104 | a failure is the exception of the first failing pass |
| AddressQuery.ConditionsMeaning | Intelligence_IQI/tool_for_comparing_csv_data/find_unmatched_transactions.py:96-104 | the loop succeeds exactly when every row has text in city, state and address; there is then one clause per row, in order |
| AddressQuery.ConditionsErrors | Intelligence_IQI/tool_for_comparing_csv_data/find_unmatched_transactions.py:98-101 | an exception is the `AttributeError` of the first row whose city, state or address is not text |
| AddressQuery.BuildQuery | Intelligence_IQI/tool_for_comparing_csv_data/find_unmatched_transactions.py:86-120 | the steps of `main` compute exactly `AddressQuery` |
| AddressQuery.AddressQueryOutcomes | Intelligence_IQI/tool_for_comparing_csv_data/find_unmatched_transactions.py:86-120 | a missing column is reported exactly when one of the four is absent; the only exceptions are `AttributeError`s on city, state or address; when every kept row has text in them, a query is built |
| AddressQuery.EmptyStateFilter | Intelligence_IQI/tool_for_comparing_csv_data/find_unmatched_transactions.py:106-107 | the filter over no state is `state IN ('')` |
| AddressQuery.StateListMeaning | Intelligence_IQI/tool_for_comparing_csv_data/find_unmatched_transactions.py:106 | `sorted(set(df['State']))` is strictly ascending and holds exactly the normal forms of the kept rows' states |
| AddressQuery.NoCompleteRows | Intelligence_IQI/tool_for_comparing_csv_data/find_unmatched_transactions.py:92-120 | with the columns present but no complete row, the query still goes out, with the empty state filter and an empty condition block |
| PyText.StripStart | Intelligence_IQI/tool_for_comparing_csv_data/tool_for_comparing_csv_data.py:33 | stripping the front leaves no leading whitespace |
| PyText.StripEnd | Intelligence_IQI/tool_for_comparing_csv_data/tool_for_comparing_csv_data.py:33 | stripping the back leaves no trailing whitespace and keeps the first character |
| PyText.Strip | Intelligence_IQI/tool_for_comparing_csv_data/tool_for_comparing_csv_data.py:33 | `str.strip()` leaves no whitespace at either end |
| PyText.StripAround | Intelligence_IQI/tool_for_comparing_csv_data/find_unmatched_transactions.py:70 | stripping text with whitespace around a stripped core gives the core |
| PyText.AllSpaceStripsAway | Intelligence_IQI/tool_for_comparing_csv_data/tool_for_comparing_csv_data.py:62 | stripping the front of whitespace alone leaves nothing |
| PyText.StripStartAround | Intelligence_IQI/tool_for_comparing_csv_data/find_unmatched_transactions.py:70 | the front strip removes exactly the leading whitespace |
| PyText.StripEndAround | Intelligence_IQI/tool_for_comparing_csv_data/find_unmatched_transactions.py:70 | the back strip removes exactly the trailing whitespace |
| PyText.StripStripped | Intelligence_IQI/tool_for_comparing_csv_data/find_unmatched_transactions.py:70 | stripped text is unchanged by `strip()` |
| PyText.StripIdempotent | Intelligence_IQI/tool_for_comparing_csv_data/tool_for_comparing_csv_data.py:97 | stripping twice is stripping once |
| PyText.LowerFixed | Intelligence_IQI/tool_for_comparing_csv_data/tool_for_comparing_csv_data.py:97 | text without capitals is unchanged by `lower()` |
| PyText.UpperFixed | Intelligence_IQI/tool_for_comparing_csv_data/find_unmatched_transactions.py:70 | text without lower-case letters is unchanged by `upper()` |
| PyText.CaseKeepsSpace | Intelligence_IQI/tool_for_comparing_csv_data/tool_for_comparing_csv_data.py:97 | changing case keeps text stripped |
| PyText.CaseResult | Intelligence_IQI/tool_for_comparing_csv_data/tool_for_comparing_csv_data.py:97 | `lower()` leaves no capital and `upper()` no lower-case letter |
| PyText.StripLowerIdempotent | Intelligence_IQI/tool_for_comparing_csv_data/tool_for_comparing_csv_data.py:97 | `strip().lower()` applied twice is applied once |
| PyText.StripUpperIdempotent | Intelligence_IQI/tool_for_comparing_csv_data/find_unmatched_transactions.py:70 | `strip().upper()` applied twice is applied once |
| PyText.NatTextDigits | Intelligence_IQI/tool_for_comparing_csv_data/tool_for_comparing_csv_data.py:52 | `str(n)` of a natural number is all digits |
| PyText.NatTextRoundTrip | Intelligence_IQI/tool_for_comparing_csv_data/tool_for_comparing_csv_data.py:52 | reading the digits of `str(n)` gives `n` back |
| PyText.NatTextInjective | Intelligence_IQI/tool_for_comparing_csv_data/tool_for_comparing_csv_data.py:103 | different numbers have different `str`, so `match_key_i` names differ |
| PyText.NatTextLength | Intelligence_IQI/tool_for_comparing_csv_data/tool_for_comparing_csv_data.py:67 | `str(n)` has `k` digits exactly when `n` lies in [10^(k-1), 10^k) |
| PyText.NatTextAtLeast2 | Intelligence_IQI/tool_for_comparing_csv_data/tool_for_comparing_csv_data.py:103 | a number of at least 10 has at least two digits |
| PyText.JoinSnoc | Intelligence_IQI/tool_for_comparing_csv_data/tool_for_comparing_csv_data.py:32 | joining one more part appends the separator and that part |
| PyText.JoinLength | Intelligence_IQI/tool_for_comparing_csv_data/tool_for_comparing_csv_data.py:32 | the length of a join is the parts' lengths plus one separator between each two |
| PyText.JoinLower | Intelligence_IQI/tool_for_comparing_csv_data/tool_for_comparing_csv_data.py:32-33 | joining lower-case parts with a lower-case separator gives lower-case text |
| PyText.LowerConcat | Intelligence_IQI/tool_for_comparing_csv_data/tool_for_comparing_csv_data.py:32-33 | the concatenation of two lower-case texts is lower case |
| PyText.ContainsAt | Intelligence_IQI/tool_for_comparing_csv_data/tool_for_comparing_csv_data.py:92 | `needle in s` holds exactly when `s` has the needle at some position |
| PyText.RemoveAbsent | Intelligence_IQI/tool_for_comparing_csv_data/tool_for_comparing_csv_data.py:55 | removing a character that is not there changes nothing |
| PyText.LexLessIrreflexive | Intelligence_IQI/tool_for_comparing_csv_data/find_unmatched_transactions.py:106 | string order is irreflexive |
| PyText.LexLessTransitive | Intelligence_IQI/tool_for_comparing_csv_data/find_unmatched_transactions.py:106 | string order is transitive |
| PyText.LexLessTotal | Intelligence_IQI/tool_for_comparing_csv_data/find_unmatched_transactions.py:106 | any two different strings are ordered one way or the other |
| PyText.Insert | Intelligence_IQI/tool_for_comparing_csv_data/find_unmatched_transactions.py:106 | inserting into a strictly sorted list keeps it strictly sorted and holds exactly the old elements and the new one |
| PyText.SortedSet | Intelligence_IQI/tool_for_comparing_csv_data/find_unmatched_transactions.py:106 | `sorted(set(xs))` is strictly sorted and holds exactly the elements of `xs` |
| PyText.SortedDistinct | Intelligence_IQI/tool_for_comparing_csv_data/find_unmatched_transactions.py:106 | a strictly sorted list has no duplicate |

## Left out

- Reading the CSV files and writing the output CSV files are not modelled. The timestamped output names (tool_for_comparing_csv_data.py:208-223) and the saved query and results files (find_unmatched_transactions.py:122-156) are not modelled either. The model starts from `Table` values and ends with the three result tables and the query text.
- Logging and `print` are left out as output. Their arguments are evaluated even when the log level hides them, and the ones that can raise are modelled: the key reads of `match_data` at tool_for_comparing_csv_data.py:121-122 and :153-154 (`Matching.RowPairs`, `MatchingFacts.MissingFirstKey`) and the date-column reads of `main` at :200 and :203 (`Settings.CompareFilesAsWritten`). The other log arguments (counts, scores, file names) cannot raise.
- Database access is left out, because it is network I/O: the IAM token, the connection, executing the query and fetching rows (find_unmatched_transactions.py:22-51, 127-156). The exists check and the load of the CSV (:76-84) are also left out.
- Cells.Oracles: `parseFlexible` returns a tz-naive instant or nothing. The flexible `pd.to_datetime` at tool_for_comparing_csv_data.py:71 can return a tz-aware `Timestamp` (for text with an offset such as `+02:00`), and subtracting it from a tz-naive one at :139 raises `TypeError`; that case is not modelled.
- `rapidfuzz.fuzz.token_sort_ratio`, `pd.to_datetime` without a format, and `str()` of a `Timestamp` are foreign code. They are parameters of type `Cells.Oracles`. Only their ranges are assumed: a percentage, an optional instant, and a string.
- `read_csv` type inference is not modelled. Cells arrive already typed as `str`, integer, float, `Timestamp`, `NaT` or `None`.
- Non-integral floats are carried with their `repr` text (`Cells.Float`). Binary floating point is not modelled.
- Matching.PairAverage: the mean is the exact rational `sum / len`, not its binary float rounding.
- Matching.Round2: rounds the exact value to the nearest hundredth, ties to even. It does not model `round` on the binary float, which can differ on ties.
- PyText.Lower: maps only the ASCII letters. Python's full Unicode case mapping is not modelled. The same holds for PyText.Upper.
- Rows are identified by position. `df.drop(index=...)` at tool_for_comparing_csv_data.py:177-180 is modelled for the default `RangeIndex` that `read_csv` produces.
- `pd.DataFrame(matched)` is modelled as the sequence of records. Each record holds the file1 row, the file2 row and the similarity. The `file1_`/`file2_` prefixes of the column names are not modelled.
- SQL quoting is not modelled. Field values are spliced into the query verbatim, as the f-strings do, and the model does not judge the resulting SQL.
- Prepare.Prepared: is `prepare_df` on the corrected `try_parse_date`. As written (tool_for_comparing_csv_data.py:51), an infinite float in a date column raises `OverflowError` instead; `Prepare.PreparedAsWritten` models that, and `Prepare.PreparedAsWrittenMeaning` relates the two. The same holds for Prepare.PrepareFrame, Prepare.PreparedFailure and Settings.CompareFilesFacts.
- Prepare.PrepareFrame: the in-place method follows the corrected parser only; the written failure on an infinite float is modelled on values (`Prepare.PreparedAsWritten`).
- Prepare.PreparedFailure: states the failure cases of the corrected `prepare_df`; the written one also fails on an infinite float (`Prepare.PreparedAsWrittenFailure`).
- Settings.CompareFilesFacts: states the errors of the corrected flow of both `prepare_df` calls and `match_data`; as written, `main` can also raise `OverflowError` from an infinite `sale_date` or `Sale Date`, and `KeyError` from the log reads at :200 and :203 when a file lacks its date column (`Settings.CompareFilesAsWrittenFacts`).
- Matching.KeyScore: the error of a `Timestamp` difference beyond the `Timedelta` range is `OutOfBoundsDatetime` (a `ValueError`), which pandas' `Timestamp.__sub__` raises in place of the underlying overflow in recent pandas versions. Older pandas versions, which let an `OverflowError` escape there, are not modelled.
- PyText.IsDigit: accepts only the ASCII digits. `str.isdigit()` at tool_for_comparing_csv_data.py:67 also accepts other Unicode digits (superscripts, Arabic-Indic digits); such text is sent to the flexible parser by the model and to the strict one by the script.
- Cells.FloatText: an `Integral(w)` float is rendered as its digits and ".0". Python does this only below 10^16 in magnitude and writes `1e+16` and the like above; the type does not enforce the bound, and integral floats of 10^16 or more are not modelled.

## Findings

| source | as written | input that shows it | evidently intended | confidence | as-written member | corrected member |
|---|---|---|---|---|---|---|
| Intelligence_IQI/tool_for_comparing_csv_data/tool_for_comparing_csv_data.py:51 | `isinstance(x, float) and x == int(x)` runs before the `try`. For an infinite float, `int(x)` raises `OverflowError`, which escapes `try_parse_date` and aborts `prepare_df`. | a date-column cell holding `float('inf')` (the text `inf` in an otherwise numeric CSV column) | every unparseable value becomes `NaT`, as the `try`/`except` around the parse and the NaN guard intend | not executed | DateParsing.InfinityRaises | DateParsing.TryParseDate |
