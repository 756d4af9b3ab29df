# Amazon A/B automation: demo extracts and their consolidation

This project models the two scripts of the A/B-test automation.

- **The generator** (`generate_demo_data.py`) starts from today's date. It derives four anchor dates:
  - the first of the month;
  - the Saturday that ended last week;
  - the Sunday that started last week;
  - the Monday of this week.

  It then writes three mock extracts: a monthly one with 8000 rows, a last-week one with 1000 rows and a this-week one with 500 rows. Row `i` of an extract is dated `start + (i mod 30)` days. Its variant, `metric_C` and `conversions` are drawn at random within fixed ranges.
- **The consolidation script** (`process_ab_data.py`) reads the three extracts in a fixed order. It skips a file that is not found and lets any other read failure end the run. It concatenates what it read into one master frame whose rows are labelled 0 .. n - 1.

## How the model is built

- `Calendar` models Python's `datetime.date`.
  - A date is its day ordinal: 0001-01-01 is 1 and 9999-12-31 is 3652059.
  - `weekday()` is `(ordinal + 6) mod 7`, with Monday as 0.
  - `date + timedelta(days=k)` is `AddDays`. It returns `OverflowError` when the result falls outside 0001-01-01 .. 9999-12-31.
  - The (year, month, day) view is computed from the ordinal. It is proved to be a bijection onto the valid triples (`ToCivil`, `FromCivil`, `ToCivilFromCivil`), and `replace(day=1)` is built on that view.
- `Frames` models a DataFrame as a sequence of rows plus its index labels. The rows have the generator's columns except `metric_D`.
- `DemoData` models the generator:
  - `CreateMockData` is the `for` loop of `create_mock_data`, as a `while` loop with invariants. It is proved against the predicate `IsMockFrame`.
  - `GenerateDemoData` is the script body. It returns the frames written so far and the overflow that stopped it, if any.
- `Consolidation` models the consolidation script:
  - `CollectFrames` is the read loop. It is proved equal to the recursive specification `Collect`.
  - `Concat` is `pd.concat(..., ignore_index=True)`. An empty list of frames ends in pandas' own ValueError, modelled as `NoObjectsToConcatenate`.
  - `ProcessAbData` is the whole script. It is proved equal to `Consolidated`.
- `DemoPipeline` connects the two scripts: the generator writes exactly the files the consolidation script reads.

A read of a file is a parameter, `read: string -> ReadOutcome`, keyed by file name. Its outcomes are `Loaded(frame)`, `FileNotFound` and `ReadError(reason)`. "Today" is a parameter of the generator. Every random draw is an arbitrary value in the range the script asks for.

Some consequences of the code, proved here:

- The anchors are computable exactly when today is on or after 0001-01-15. Earlier, `end_of_last_week` or `start_of_last_week` overflows.
- The monthly extract never overflows. The last-week and this-week extracts overflow in the last days of 9999, because their dates run 29 days past their start.
- With 30 rows or more, the "last week" extract reaches at least 15 days after today, and the "this week" extract at least 23 days after today. Neither extract stays within its week.
- If all three files are missing, nothing is collected and `pd.concat` raises ValueError. The code has no guard for this case.

## Model

| member | source | states |
|---|---|---|
| Calendar.FromCivil | amazon_ab_automation/generate_demo_data.py:29 | `date(y, m, d)` for a valid triple is a representable date. It falls within the day range of year `y`. |
| Calendar.ToCivil | amazon_ab_automation/generate_demo_data.py:29 | Every representable date displays as a valid (year, month, day) triple, and that triple denotes the same date. |
| Calendar.ToCivilFromCivil | amazon_ab_automation/generate_demo_data.py:29 | Round trip: the display of `date(y, m, d)` is `(y, m, d)`. |
| Calendar.MonthHeadroom | amazon_ab_automation/generate_demo_data.py:40 | The first of any month from year 1 to 9999 has at least 29 representable days after it. |
| Calendar.Weekday | amazon_ab_automation/generate_demo_data.py:30-32 | `weekday()` lies in 0..6 and is the number of days since the last Monday. 0001-01-01 was a Monday. |
| Calendar.KnownWeekdays | amazon_ab_automation/generate_demo_data.py:30-32 | Calibration against the calendar: 0001-01-01 and 2024-01-01 are Mondays. 9999-12-31 is the last ordinal and a Friday. |
| Calendar.AddDays | amazon_ab_automation/generate_demo_data.py:30-32 | `date + timedelta(days=k)` succeeds exactly when the result is representable, and the result is then `k` days later. Otherwise it raises OverflowError. |
| Calendar.WeekdayAfter | amazon_ab_automation/generate_demo_data.py:30-32 | Moving a date by `k` days moves its weekday by `k` modulo 7. |
| Calendar.AddDaysTwice | amazon_ab_automation/generate_demo_data.py:30-31 | Two successive shifts land on the same date as one shift by their sum. |
| Frames.RangeIndex | amazon_ab_automation/process_ab_data.py:32 | The default index of `n` rows has the labels 0 .. n - 1. |
| Frames.FromRecords | amazon_ab_automation/generate_demo_data.py:24 | `pd.DataFrame(records)` keeps the records in order and labels them 0 .. n - 1. |
| DemoData.FirstOfMonth | amazon_ab_automation/generate_demo_data.py:29 | `today.replace(day=1)` has today's year and month and day 1. It is at most today, and today falls within its month. |
| DemoData.EndOfLastWeek | amazon_ab_automation/generate_demo_data.py:30 | Succeeds exactly from 0001-01-08 on. The result is a Saturday 2 to 8 days before today. |
| DemoData.StartOfLastWeek | amazon_ab_automation/generate_demo_data.py:31 | Succeeds exactly when the Saturday is day 7 or later. The result is 6 days earlier, one weekday further modulo 7. |
| DemoData.StartOfThisWeek | amazon_ab_automation/generate_demo_data.py:32 | Never overflows. The result is a Monday 0 to 6 days before today. |
| DemoData.LastWeekFitsFrom | amazon_ab_automation/generate_demo_data.py:30-31 | Last week's Sunday is representable exactly when today is 0001-01-15 or later. |
| DemoData.WeekAnchors | amazon_ab_automation/generate_demo_data.py:30-32 | The three weekly anchors, computed in the script's order, succeed exactly from 0001-01-15 on. They are today minus weekday+2, weekday+8 and weekday days. |
| DemoData.ComputeAnchors | amazon_ab_automation/generate_demo_data.py:28-32 | The four anchors succeed exactly from 0001-01-15 on. The first is `replace(day=1)` and the others are as in `WeekAnchors`. |
| DemoData.SundayBeforeSaturday | amazon_ab_automation/generate_demo_data.py:30-31 | Six days before last week's Saturday is a Sunday. |
| DemoData.AnchorLayout | amazon_ab_automation/generate_demo_data.py:28-32 | From 0001-01-15 on the anchors exist, and they are valid dates. The first of the month shares today's year and month. Last week runs from a Sunday to the Saturday 6 days later. This week's Monday is that Saturday plus 2, so the Sunday between falls in neither week. That Monday is 0 to 6 days before today. |
| DemoData.FirstOfMonthHeadroom | amazon_ab_automation/generate_demo_data.py:29-40 | The 30 dates of the monthly extract always stay within 9999-12-31. |
| DemoData.RandInt | amazon_ab_automation/generate_demo_data.py:20 | `random.randint(lo, hi)` returns an integer from `lo` to `hi`, both included. |
| DemoData.Uuid4 | amazon_ab_automation/generate_demo_data.py:18 | `fake.uuid4()` returns the text of some version-4 UUID: 36 characters, hex digit groups 8-4-4-4-12 joined by hyphens, version digit `4` and variant digit among `8`, `9`, `a`, `b`. |
| DemoData.Choice | amazon_ab_automation/generate_demo_data.py:19-22 | `random.choice(options)` returns one of the options. |
| DemoData.CreateMockData | amazon_ab_automation/generate_demo_data.py:11-24 | Fails with OverflowError exactly when some cycled date passes 9999-12-31. Otherwise it returns `max(n, 0)` rows labelled 0 .. n - 1. Row `i` is dated `start + (i mod 30)`, has variant Control or Treatment, `metric_C` in 100..1000 and `conversions` 0 or 1, and a `user_id` that is the text of a version-4 UUID. |
| DemoData.MockDatesInCycle | amazon_ab_automation/generate_demo_data.py:15 | Every generated date lies in `[start, start + 29]`. |
| DemoData.MockDatesRepeat | amazon_ab_automation/generate_demo_data.py:15 | Rows `i` and `i + 30` share a date. |
| DemoData.MockDatesCoverCycle | amazon_ab_automation/generate_demo_data.py:15 | With 30 rows or more, each of the 30 days from `start` is the date of row `day - start`. |
| DemoData.WeeklyFramesReachPastToday | amazon_ab_automation/generate_demo_data.py:43-46 | The last-week extract reaches at least 15 days past today, and the this-week extract at least 23 days. |
| DemoData.GenerateDemoData | amazon_ab_automation/generate_demo_data.py:26-47 | The run completes exactly when the anchors exist and this week's 30 dates fit. The monthly file is written exactly when the anchors exist. The last-week file is written exactly when its dates also fit, and the this-week file exactly when the run completes. Only the three names are written. Each written frame is a mock frame from its anchor with 8000, 1000 or 500 rows. |
| Consolidation.CollectFrames | amazon_ab_automation/process_ab_data.py:20-29 | The read loop returns exactly what the recursive specification `Collect` gives for the file list. |
| Consolidation.LoadedPositions | amazon_ab_automation/process_ab_data.py:24-26 | The positions of the loaded files are strictly increasing, in range, all loaded, and complete. |
| Consolidation.CollectKeepsLoadedInOrder | amazon_ab_automation/process_ab_data.py:20-26 | On success, the collected list has one frame per loaded file, in file order, and its length is at most the number of files listed. |
| Consolidation.CollectFailsAtFirstError | amazon_ab_automation/process_ab_data.py:22-29 | The loop fails exactly when some read fails other than by a missing file. It then reports the first such file and its reason. |
| Consolidation.CollectAppend | amazon_ab_automation/process_ab_data.py:20-29 | Collecting from `a + b` is collecting from `a`, then from `b`, and the first failure wins. |
| Consolidation.SkipsMissingFile | amazon_ab_automation/process_ab_data.py:28-29 | A file that is not found changes nothing: the result is as if it were not listed. |
| Consolidation.ConcatRows | amazon_ab_automation/process_ab_data.py:32 | The concatenated rows number the sum of the frames' row counts. |
| Consolidation.ConcatRowAt | amazon_ab_automation/process_ab_data.py:32 | Row `k` of frame `j` appears at position `k` after the rows of all earlier frames. |
| Consolidation.ConcatRowsAppend | amazon_ab_automation/process_ab_data.py:32 | Concatenating `a + b` gives the rows of `a`, then the rows of `b`, and the row counts add. |
| Consolidation.Concat | amazon_ab_automation/process_ab_data.py:32 | An empty list raises ValueError (`NoObjectsToConcatenate`). Otherwise the result's rows are the frames' rows one after another in list order (`ConcatRows`), with the total row count and the labels 0 .. n - 1. |
| Consolidation.ConcatIgnoresIndex | amazon_ab_automation/process_ab_data.py:32 | `ignore_index=True`: frames with the same rows concatenate to the same result, whatever their labels. |
| Consolidation.ProcessAbData | amazon_ab_automation/process_ab_data.py:10-32 | The script's result is the fixed file list collected and then concatenated. |
| Consolidation.LoadedFramesAppend | amazon_ab_automation/process_ab_data.py:20-26 | The loaded frames of `a + b` are those of `a`, then those of `b`. |
| Consolidation.LoadedFramesEmpty | amazon_ab_automation/process_ab_data.py:24-29 | No frame is loaded exactly when no listed file loads. |
| Consolidation.CollectIsLoadedFrames | amazon_ab_automation/process_ab_data.py:20-29 | A loop that runs to the end has collected exactly the loaded frames, in file order. |
| Consolidation.ConsolidatedRows | amazon_ab_automation/process_ab_data.py:20-32 | For any read outcomes, the script succeeds exactly when no read fails other than by a missing file and at least one file loads. The master frame then holds the loaded frames' rows in file order, labelled 0 .. n - 1. |
| Consolidation.NothingFound | amazon_ab_automation/process_ab_data.py:31-32 | When every listed file is missing, the script ends in ValueError from `pd.concat`. |
| Consolidation.FirstFileMissing | amazon_ab_automation/process_ab_data.py:10-32 | With the monthly file missing and the weekly ones present, the master frame holds last week's rows, then this week's, relabelled. |
| Consolidation.AllFilesLoaded | amazon_ab_automation/process_ab_data.py:10-32 | With all three files present, the master frame holds the monthly, last-week and this-week rows in that order, relabelled. |
| DemoPipeline.SameFileNames | amazon_ab_automation/process_ab_data.py:10-14 | The consolidation script reads the three files the generator writes, in the order they are written. |
| DemoPipeline.GeneratedFilesConsolidate | amazon_ab_automation/process_ab_data.py:10-32 | When the generated files read back as written, consolidation succeeds with 9500 rows: the monthly rows, then last week's, then this week's. |

## Left out

- Excel reading and writing (`pd.read_excel`, `to_excel`), `os.makedirs` and `os.path.join` are file I/O. A read is modelled only by its outcome for a file name, and the folder prefix is dropped.
- `date.today()` is a parameter.
- `print`, `info()` and `head()` are output only.
- pandas' column alignment in `concat` (an outer join over differing column sets) is library behaviour. Frames here share the generator's one column set.
- DemoData.CreateMockData: does not model `metric_D` (`random.uniform(0.1, 5.0)`), because it is floating point. The random draws are nondeterministic choices within their ranges, not a generator, so the model says nothing about their distribution.
- DemoData.Uuid4: states the text format of a version-4 UUID, not that its 122 random bits are drawn uniformly.
- Consolidation.ProcessAbData: any read failure other than a missing file is one `ReadError(reason)`. The model does not distinguish the exception types pandas may raise.
- The scripts under `ingest_scripts/` are an HTTP fetch and a JSON dump with exploratory printing. They are not part of this model.
