# Report generators: a Dafny model

This project models the core of a small set of reporting scripts.

- **JCB slide generator** (`jcb/generate.py`). It fills one PowerPoint slide per client from CSV exports. It:
  - finds the template's shapes by their text, kind and position;
  - rewrites their text runs without losing formatting;
  - writes the brand ranking into the report table, shrinking long brand names so they stay on one line;
  - prepares the brand donut data (top 8 plus "その他");
  - fills purchase weeks missing from the login weeks;
  - strips "（申込企業：…）" from titles;
  - picks the day's task folder name.
- **Structural validator** (`jcb/validate.py`). It compares the table of every generated slide with the template's table and reports errors and warnings. The exit status follows from those.
- **Shared CSV helpers** (`shared/csv_utils.py`). They find input CSVs by keyword and group a table by a key column.
- **Monthly report generator** (`oasis-monthly/generate.py`). It:
  - finds its input files and dispatches the reader on the file suffix;
  - decides which reports to make;
  - writes the campaign promotion-cost workbook: two raw sheets, the calculation sheet with its formulas, and the row-3 totals;
  - writes the point-usage workbook: the raw sheet, the result sheet, the sum row with its fill and borders, and the template tail.

Pure computations are Dafny functions with lemmas. The loops of the source are methods, each proved equal to a specification function. Things the source mutates in place are classes with `modifies` clauses: a slide shape's paragraphs (`Runs.Shape`), the report table (`TableFill.Table`) and an openpyxl worksheet (`Sheets.Sheet`).

Files and modules:

| file | module | models |
|---|---|---|
| `values.dfy` | `Values` | pandas cell values, `int()` and `str()` |
| `text.dfy` | `Text` | decimal and `{:,}` rendering, `in`, `lower()`, `strip()` |
| `sorting.dfy` | `Sorting` | stable sort by key |
| `jcb_fit.dfy` | `TextFit` | width estimate and font shrinking |
| `jcb_runs.dfy` | `Runs` | `_set_cell_text`, `replace_text`, `replace_chart_label_runs` |
| `jcb_table.dfy` | `TableFill` | `fill_table_by_ref` |
| `jcb_detect.dfy` | `ShapeDetect` | `_detect_shapes` |
| `jcb_aggregate.dfy` | `Aggregate` | donut rows, missing weeks, title cleanup, task folder |
| `jcb_validate.dfy` | `Validate` | `_get_table_metrics`, `validate`, exit status |
| `csv_utils.dfy` | `CsvUtils` | `detect_csv_files`, `load_and_group` |
| `oasis_sheet.dfy` | `Sheets` | worksheet cells, `max_row`, clearing loops |
| `oasis_inputs.dfy` | `OasisInputs` | `get_value`, `read_data`, `find_input_files`, `main`'s plan |
| `oasis_reports.dfy` | `OasisReports` | `generate_campaign_report`, `generate_point_report` |

## Model

| member | source | states |
|---|---|---|
| Values.TruncReal | jcb/generate.py:218 | `int(x)` truncates toward zero, for positive and negative reals alike |
| Values.IntOf | jcb/generate.py:172 | `int(v)` fails exactly on NaN and keeps an int unchanged |
| Text.Digits | jcb/generate.py:218 | the decimal digits of a natural number, without leading zeros; a single digit exactly below 10 |
| Text.ParseDigitsOfDigits | jcb/generate.py:218 | reading the decimal digits back gives the number |
| Text.UngroupedGrouped | jcb/generate.py:218 | removing the thousands commas from a grouped digit string gives the digits back |
| Text.ThousandsRoundTrip | jcb/generate.py:218 | `f"{i:,}"` loses nothing: the grouped text of any integer reads back as that integer |
| Text.ContainsAt | shared/csv_utils.py:33 | `sub in s` holds when `sub` occurs at some position |
| Text.ContainsWitness | shared/csv_utils.py:33 | `sub in s` gives a position where `sub` occurs |
| Text.LowerSpec | shared/csv_utils.py:29 | `lower()` leaves no ASCII capital and changes nothing else; it is idempotent and works piecewise on a concatenation, so ".CSV" and ".Csv" both compare equal to ".csv" |
| Sorting.Insert | jcb/generate.py:376 | insertion keeps every element and adds `x` once |
| Sorting.SortBy | jcb/generate.py:376 | the sort is a permutation of its input |
| Sorting.SortBySorted | jcb/generate.py:376 | the sort's result is ordered by key |
| Sorting.SortByStable | jcb/generate.py:376 | elements with equal keys keep their input order |
| Sorting.SortHeadIsFirstSmallest | jcb/generate.py:376 | the head of the sorted sequence is the first element with the smallest key |
| TextFit.HalfWidthConcat | jcb/generate.py:57-65 | the width estimate of a concatenation is the sum of the widths |
| TextFit.HalfWidthBounds | jcb/generate.py:57-65 | each character counts half or one unit: the estimate lies between `len` and `2*len`, is 0 only for "", and is exact for all-narrow or all-wide text |
| TextFit.EstimateTextWidth | jcb/generate.py:57-65 | the loop computes the half-unit width of the text |
| TextFit.FitsMonotone | jcb/generate.py:79-86 | what fits at a size still fits when the text is narrower or the size is smaller |
| TextFit.LargestFit | jcb/generate.py:82-90 | the downward search returns the largest size that fits, or 7pt when none does |
| TextFit.ShrunkSize | jcb/generate.py:68-90 | None exactly for an empty text or one that fits at 10.5pt; otherwise a size from 7pt to 10pt, the largest that fits, and no larger size fits |
| TextFit.ShrunkSizeMonotone | jcb/generate.py:68-90 | a text estimated wider never gets a larger font |
| TextFit.CalcFontSize | jcb/generate.py:68-90 | the method returns the specified size for the column width less both cell margins |
| Runs.FirstWithRunsFrom | jcb/generate.py:99-107 | finds the first paragraph that has runs; every paragraph before it is empty |
| Runs.FirstRunWrittenSpec | jcb/generate.py:140-145 | the paragraph and run structure is kept; the first paragraph with runs gets the text in run 0 and empties its other runs; every other paragraph is unchanged; a shape without runs is unchanged |
| Runs.RewrittenSpec | jcb/generate.py:100-105 | run 0 gets the text and the optional size; every other run is emptied and keeps its size |
| Runs.CellTextWrittenKeepsParagraphs | jcb/generate.py:93-111 | a cell's paragraph count never changes; a cell without runs gets the text as its first paragraph, unless the text is empty |
| Runs.ClearRuns | jcb/generate.py:100-101 | every run's text is emptied, and nothing else changes |
| Runs.WriteFirstRun | jcb/generate.py:140-145 | the substitution loop computes the specified paragraphs |
| Runs.SetCellText | jcb/generate.py:93-111 | `_set_cell_text` computes the specified cell paragraphs |
| Runs.PeriodParts | jcb/generate.py:167 | with no "/", the placeholders ("yyyy", "mm"); with one "/", the two parts around it; with two or more, the unpacking error |
| Runs.SlashIndex | jcb/generate.py:167 | the position of the first "/" |
| Runs.ValueText | jcb/generate.py:172 | NaN fails `int()`; a string is written as it is; an int is written `{:,}`-grouped and reads back as the number |
| Runs.LabelRunsSpec | jcb/generate.py:159-173 | fewer than 6 runs are left alone; sizes and runs 0, 1 and 4 are kept; runs 2 and 3 get the year and "/month"; run 5 gets "：" + value + unit + "）"; an error is raised iff the period has two or more "/" (then nothing is written) or the value is NaN (then runs 2 and 3 are written and run 5 is not) |
| Runs.LabelRunsPlaceholders | jcb/generate.py:167-173 | a period without "/" and an empty value give "yyyy", "/mm" and "：" + unit + "）" |
| Runs.Shape.constructor | jcb/generate.py:136-139 | a text frame holds at least one paragraph; other shapes hold none |
| Runs.Shape.ReplaceText | jcb/generate.py:136-145 | a shape without a text frame is untouched; otherwise its paragraphs become the specified substitution |
| Runs.Shape.ReplaceChartLabelRuns | jcb/generate.py:148-173 | only the first paragraph changes, as specified; a shape without a text frame is untouched; the error raised is reported |
| TableFill.CellValue | jcb/generate.py:214-218 | the corrected number rule (see Findings): a missing or NaN value is ""; numbers outside the brand column, integer or float, are `{:,}` of their `int()`; strings are kept |
| TableFill.CellValueAsWritten | jcb/generate.py:214-218 | the rule as written: a missing or NaN value is ""; only float values are grouped; an integer value is kept as it is |
| TableFill.IntColumnUngrouped | jcb/generate.py:210-220 | as written, an integer of 1000 or more in a numeric column is written as plain digits with no comma, unlike the grouped text |
| TableFill.FilledGridFrame | jcb/generate.py:207-230 | the header and rows past 10 are unchanged; cells keep their paragraph count and, when they have runs, their run structure |
| TableFill.CellWrittenStructure | jcb/generate.py:225 | writing a cell keeps its paragraph count and run structure |
| TableFill.FilledGridIgnoresExtraData | jcb/generate.py:207-209 | records after the tenth never reach the table |
| TableFill.FilledGridBlanks | jcb/generate.py:226-230 | a body row without a record, and every column past the data columns, shows "" and keeps its other paragraphs |
| TableFill.BlankedSingleParagraph | jcb/generate.py:226-230 | a blanked one-paragraph cell shows nothing in any run |
| TableFill.FilledGridDataRow | jcb/generate.py:209-225 | body row `i+1` shows record `i`'s text for each data column; the font size is the shrink size for the brand column and is otherwise unchanged |
| TableFill.CellTextRules | jcb/generate.py:214-220 | for the corrected rule: NaN and "" give an empty cell; a number gives its grouped value followed by the column's unit, and reads back as that number; any other text is the value followed by the unit |
| TableFill.FillRow | jcb/generate.py:209-230 | the row loop computes the specified row |
| TableFill.Table.constructor | jcb/generate.py:190-198 | a table keeps its rows and grid column widths |
| TableFill.Table.FillByRef | jcb/generate.py:184-230 | the table's rows become the specified fill, with the first grid column's width as the brand width; a table with fewer than ten body rows has those rows filled and then raises IndexError |
| ShapeDetect.TextRole | jcb/generate.py:320-343 | the text rules give only text-shape roles, never the table role |
| ShapeDetect.ShapeRole | jcb/generate.py:313-344 | a shape claims the table role exactly when it is a table; pictures and other shapes claim nothing in the first pass |
| ShapeDetect.Claimed | jcb/generate.py:313-344 | each claimed role names an earlier shape that claims it |
| ShapeDetect.ClaimedLastWins | jcb/generate.py:313-344 | a role is claimed exactly when some shape claims it, and no later shape claims it again |
| ShapeDetect.Pictures | jcb/generate.py:317-319 | the collected pictures are exactly the picture shapes |
| ShapeDetect.NearestBelow | jcb/generate.py:348-363 | any picture returned is one of the slide's shapes |
| ShapeDetect.NearestBelowSpec | jcb/generate.py:348-363 | None exactly when no picture lies below the label; otherwise a picture below the label, nearest to it, and the first of those at that distance |
| ShapeDetect.BrandCandidates | jcb/generate.py:371-374 | the candidates are pictures below the brand label other than the two chart images, each with its width |
| ShapeDetect.WidestFirstHead | jcb/generate.py:376 | the first sorted candidate is the first of the widest ones, and the second is no wider |
| ShapeDetect.Analyse | jcb/generate.py:313-380 | every claimed index is a shape of the slide, and only shape roles are claimed |
| ShapeDetect.AssembleImages | jcb/generate.py:365-380 | the chart-image entries are always present; the brand images are present exactly when the label and enough candidates exist, in widest-first order |
| ShapeDetect.DetectedShapeRoles | jcb/generate.py:313-344 | a shape role is detected exactly when some shape claims it; it is then held by the last such shape, which is not a picture |
| ShapeDetect.DetectedChartImages | jcb/generate.py:348-366 | the login and purchase images are the pictures nearest below their labels, or None without a label |
| ShapeDetect.DetectedBrandImages | jcb/generate.py:368-380 | brand images 1 and 2 are the first two brand candidates sorted widest first, present only when they exist |
| ShapeDetect.FindPictureBelow | jcb/generate.py:348-363 | the loop computes the nearest-below picture |
| ShapeDetect.ClaimRoles | jcb/generate.py:313-344 | the first loop computes the claimed roles and the picture list |
| ShapeDetect.CollectBrandPictures | jcb/generate.py:371-374 | the brand loop computes the candidates |
| ShapeDetect.AnalyseShapes | jcb/generate.py:313-380 | the loops compute the intermediate results |
| ShapeDetect.AssembleRefs | jcb/generate.py:365-380 | the entries written into `refs` are the specified ones |
| ShapeDetect.DetectShapes | jcb/generate.py:301-391 | `_detect_shapes` returns the specified `refs` |
| Aggregate.DonutRowsSpec | jcb/generate.py:487-496 | the first eight brands are kept in order; more than eight adds exactly one "その他" row; counts and prices keep their totals |
| Aggregate.MissingWeeks | jcb/generate.py:611 | the missing weeks are exactly the login weeks that have no purchase row |
| Aggregate.FillerRows | jcb/generate.py:613-616 | one filler per missing week, with count 0 and the other columns copied from the first row |
| Aggregate.SumCountsSortBy | jcb/generate.py:619 | sorting keeps the purchase total |
| Aggregate.FillMissingWeeksSpec | jcb/generate.py:609-620 | unchanged when no week is missing; otherwise sorted by week; the original rows plus the fillers; every login week present; the total unchanged |
| Aggregate.FillMissingWeeksIdempotent | jcb/generate.py:609-620 | filling twice is filling once |
| Aggregate.MissingWeeksNone | jcb/generate.py:611-612 | rows that cover every login week miss none |
| Aggregate.FillAllCompanies | jcb/generate.py:609-620 | every company's rows are filled, and no company is added or dropped |
| Aggregate.SuffixedInjective | jcb/generate.py:525-528 | different run numbers give different folder names |
| Aggregate.TaskDirName | jcb/generate.py:521-528 | the name is new; it is today's date when that is free; otherwise the first free `{today}_{n}` with n from 2 |
| Aggregate.ClosingAtSpec | jcb/generate.py:51 | `[^）]+）` matches up to and including the first "）", needs at least one other character first, and fails only when the text is empty, starts with "）" or has no "）" |
| Aggregate.StripApplicant | jcb/generate.py:51 | removing matches never lengthens the name |
| Aggregate.StripApplicantNoMarker | jcb/generate.py:423 | a name without "（申込企業：" is unchanged |
| Aggregate.StripApplicantSuffix | jcb/generate.py:423 | a trailing "（申込企業：company）" is removed entirely |
| Validate.TableMetrics | jcb/validate.py:22-57 | None exactly when no shape has a table; otherwise the metrics of the first table |
| Validate.MetricsOfSpec | jcb/validate.py:30-56 | one height and one paragraph-count row per table row, one width per grid column; a missing `h` reads as 0 |
| Validate.HeightIssuesSpec | jcb/validate.py:94-99 | a row-height warning is reported exactly for each zipped pair that differs, in row order |
| Validate.WidthIssuesSpec | jcb/validate.py:102-107 | a column-width error is reported exactly for each zipped pair that differs, in column order |
| Validate.RowParagraphIssuesSpec | jcb/validate.py:125-130 | a paragraph error is reported exactly for each cell of the row with more than one paragraph |
| Validate.RowParagraphIssuesOrdered | jcb/validate.py:125-130 | a row's paragraph errors come in column order |
| Validate.ParagraphIssuesSpec | jcb/validate.py:124-130 | a paragraph error is reported exactly for each cell with more than one paragraph |
| Validate.ParagraphIssuesOrdered | jcb/validate.py:124-130 | paragraph errors come once each, in row-major order |
| Validate.CountIssues | jcb/validate.py:80-91 | count differences are errors about this slide |
| Validate.GridIssues | jcb/validate.py:94-107 | grid differences carry the severity of their kind |
| Validate.PlacementIssues | jcb/validate.py:110-121 | position and size differences carry the severity of their kind |
| Validate.SlideIssues | jcb/validate.py:71-130 | every issue of a slide carries that slide's number |
| Validate.SlideIssuesSeverity | jcb/validate.py:75-130 | every issue carries the severity of its kind: a warning for heights and position, an error otherwise |
| Validate.AllIssuesPerSlide | jcb/validate.py:71-132 | no early exit: the issues about slide `s` are exactly that slide's checks |
| Validate.NoTableSlide | jcb/validate.py:75-77 | a slide without a table yields exactly one error and nothing else |
| Validate.RowCountOnce | jcb/validate.py:80-84 | a row-count mismatch gives exactly one issue |
| Validate.ColCountOnce | jcb/validate.py:87-91 | a column-count mismatch gives exactly one issue |
| Validate.PositionOnce | jcb/validate.py:110-114 | a moved table gives exactly one warning, whatever moved |
| Validate.SizeOnce | jcb/validate.py:117-121 | a resized table gives exactly one error, whatever changed |
| Validate.SameMetricsNoIssues | jcb/validate.py:80-130 | a slide identical to the template is reported only for cells with several paragraphs; with single-paragraph cells it is not reported at all |
| Validate.WithSeverity | jcb/validate.py:151-152 | the errors or warnings are exactly the issues of that severity |
| Validate.ExitCode | jcb/validate.py:147-164 | exit 1 exactly when there is an error; warnings alone exit 0 |
| Validate.MainExitCode | jcb/validate.py:135-164 | a missing argument or file exits 1; otherwise 1 exactly when there is an error |
| Validate.GetTableMetrics | jcb/validate.py:22-57 | the loop computes the first table's metrics |
| Validate.ReadTable | jcb/validate.py:23-54 | the row heights, grid widths and per-cell paragraph counts read off a table shape are exactly its metrics |
| Validate.CheckCounts | jcb/validate.py:80-91 | appends the count issues |
| Validate.CheckGrid | jcb/validate.py:94-107 | appends the height and width issues |
| Validate.CheckPlacement | jcb/validate.py:110-121 | appends the position and size issues |
| Validate.CheckParagraphs | jcb/validate.py:124-130 | appends the paragraph issues |
| Validate.CheckRowParagraphs | jcb/validate.py:125-130 | appends, left to right, one issue per cell of one table row holding more than one paragraph |
| Validate.CheckSlide | jcb/validate.py:80-130 | appends a slide's issues in the source's order |
| Validate.ValidateSlide | jcb/validate.py:72-130 | one iteration appends the slide's issues |
| Validate.ImportFrom | jcb/validate.py:17 | `from config import ...` fails exactly when a requested name is not defined, and names that name |
| Validate.ImportAsWrittenFails | jcb/validate.py:17 | as written, importing `SHAPES` from `jcb/config.py` raises ImportError |
| Validate.ImportSucceeds | jcb/validate.py:17 | importing only `TEMPLATE_PATH`, the one name the script uses, succeeds |
| Validate.ValidateSlides | jcb/validate.py:60-132 | `validate` returns the issues of every slide, in slide order |
| Validate.FilledTableParagraphCounts | jcb/generate.py:207-230 | filling the table never changes a cell's paragraph count, so the validator's paragraph check sees the template's counts |
| CsvUtils.FirstMatch | shared/csv_utils.py:28-34 | a match is a listed CSV name matching one of the keywords |
| CsvUtils.FirstMatchNone | shared/csv_utils.py:26-34 | a key stays None exactly when no listed CSV matches |
| CsvUtils.FirstMatchAt | shared/csv_utils.py:31-34 | the earliest matching CSV wins |
| CsvUtils.Detected | shared/csv_utils.py:26 | the result has exactly the pattern keys |
| CsvUtils.DetectedSpec | shared/csv_utils.py:16-36 | each key is None exactly when nothing matches, and otherwise holds the earliest matching CSV |
| CsvUtils.DetectedShared | shared/csv_utils.py:30-34 | one file can fill several keys |
| CsvUtils.DetectCsvFiles | shared/csv_utils.py:16-36 | the loops compute the specified detection |
| CsvUtils.MatchPatterns | shared/csv_utils.py:30-34 | for one file, each key still None whose keywords match takes the file, and the others are unchanged |
| CsvUtils.AnyKeyword | shared/csv_utils.py:33 | `any(kw in name or kw in name_lower)` |
| CsvUtils.ColumnIndex | shared/csv_utils.py:11 | the key column's position, None exactly when there is no such column |
| CsvUtils.RowsWithKey | shared/csv_utils.py:11-12 | a group holds only rows of the table with that key |
| CsvUtils.Grouped | shared/csv_utils.py:7-13 | fails exactly when the key column is missing |
| CsvUtils.GroupedPartition | shared/csv_utils.py:11-12 | every row with a non-NaN key is in its group; groups hold only rows with their key; NaN keys form no group |
| CsvUtils.GroupSizes | shared/csv_utils.py:11-12 | each group has as many rows as the table has with that key |
| CsvUtils.LoadAndGroup | shared/csv_utils.py:7-13 | the grouping pass computes the specified groups |
| Sheets.PastMaxRowEmpty | oasis-monthly/generate.py:92 | past `max_row` every cell is empty |
| Sheets.Sheet.constructor | oasis-monthly/generate.py:88 | a loaded sheet holds its cells and `max_row` |
| Sheets.Sheet.SetValue | oasis-monthly/generate.py:94 | only the addressed cell's value changes; `max_row` grows to that row |
| Sheets.Sheet.SetFill | oasis-monthly/generate.py:244 | only the addressed cell's fill changes; `max_row` grows to that row |
| Sheets.Sheet.SetBorder | oasis-monthly/generate.py:245 | only the addressed cell's border changes; `max_row` grows to that row |
| Sheets.Sheet.ClearValues | oasis-monthly/generate.py:92-94 | exactly the block's values are cleared; `max_row` grows to the block's last row |
| Sheets.Sheet.ResetBlock | oasis-monthly/generate.py:241-245 | exactly the block's cells are reset to value, fill and border empty |
| Sheets.Sheet.WritePresent | oasis-monthly/generate.py:124-127 | only the present values are written, in their columns; `max_row` grows only when one is written |
| OasisInputs.GetValue | oasis-monthly/generate.py:35-42 | the default for a missing column or a NaN; the value otherwise |
| OasisInputs.GetValueNeverNaN | oasis-monthly/generate.py:35-42 | with a non-NaN default, a NaN never reaches the sheet |
| OasisInputs.LastDot | oasis-monthly/generate.py:47 | the last "." of the name, or -1 |
| OasisInputs.SuffixShape | oasis-monthly/generate.py:47 | a suffix is "" or "." followed by at least one character and no "."; it ends the name |
| OasisInputs.ReadFormat | oasis-monthly/generate.py:45-53 | read as CSV exactly when the lowered suffix is ".csv" |
| OasisInputs.SupportedReadable | oasis-monthly/generate.py:45-53 | the scan accepts exactly the files the reader can open; ".xlsx" and ".xls" read as Excel |
| OasisInputs.RoleOf | oasis-monthly/generate.py:64-74 | only files with a supported suffix get a role |
| OasisInputs.RoleOfSpec | oasis-monthly/generate.py:64-74 | the tests run in the order campaign, discount, point; the first that matches decides; a file matching none has no role |
| OasisInputs.Tags | oasis-monthly/generate.py:64-74 | the role of every listed file, in order |
| OasisInputs.LastTaggedSpec | oasis-monthly/generate.py:69-74 | None exactly when no tag matches; otherwise the last name with that tag |
| OasisInputs.LastWithRoleSpec | oasis-monthly/generate.py:56-76 | a role stays None exactly when no file plays it; otherwise the last file that plays it wins |
| OasisInputs.FoundRoles | oasis-monthly/generate.py:56-76 | each chosen file is listed, has a supported suffix and plays its slot's role |
| OasisInputs.CampaignWins | oasis-monthly/generate.py:69-74 | a campaign-named file is never the discount or point file |
| OasisInputs.UnsupportedIgnored | oasis-monthly/generate.py:65-66 | a file with an unsupported suffix anywhere in the listing changes nothing |
| OasisInputs.LaterOverwrites | oasis-monthly/generate.py:69-74 | a file appended to the listing takes over its role and leaves the other slots alone |
| OasisInputs.FindInputFiles | oasis-monthly/generate.py:56-76 | the scan loop computes the specified choice |
| OasisInputs.PlanWithoutArguments | oasis-monthly/generate.py:262-296 | with no command-line paths, the campaign report is attempted iff a listed file plays the campaign role and one plays the discount role; the point report iff one plays the point role |
| OasisInputs.CampaignAloneIsNotEnough | oasis-monthly/generate.py:274-306 | with no arguments, a listing with only a campaign file makes no report |
| OasisReports.DigitRunAfter | oasis-monthly/generate.py:153-163 | digits written after a non-digit are read back whole |
| OasisReports.NumberBeforeTail | oasis-monthly/generate.py:153-163 | the number written before a known tail is the row number read back |
| OasisReports.CalcFormulaRows | oasis-monthly/generate.py:152-163 | both VLOOKUP ranges end at the discount sheet's last data row; every other formula refers to its own row |
| OasisReports.LookupFormulaRows | oasis-monthly/generate.py:152-155 | the VLOOKUP ranges end at row `discount rows + 1` |
| OasisReports.CheckFormulaRows | oasis-monthly/generate.py:157-163 | the ROUNDDOWN and IF formulas end with their own row |
| OasisReports.ArithmeticFormulaRows | oasis-monthly/generate.py:156-161 | the product and difference formulas end with their own row |
| OasisReports.SumTextEnd | oasis-monthly/generate.py:166-169 | a SUM range ends where it was asked to |
| OasisReports.CampaignTotalCircular | oasis-monthly/generate.py:165-169 | the written total's range covers its own row 3 exactly when there are no campaign rows |
| OasisReports.CampaignTotalSpec | oasis-monthly/generate.py:165-169 | the total is 0 exactly without rows; otherwise it sums rows 4 to `n+3` and never its own row |
| OasisReports.PointSumCircular | oasis-monthly/generate.py:218-222 | the written sum's range covers its own row exactly when there are no point rows |
| OasisReports.PointSumSpec | oasis-monthly/generate.py:218-222 | the sum is 0 exactly without rows; otherwise it sums rows 2 to `n+1` and never its own row |
| OasisReports.RewrittenPlacesRow | oasis-monthly/generate.py:96-97 | data row `i` lands on sheet row `top + i` |
| OasisReports.RewrittenEmpty | oasis-monthly/generate.py:92-94 | a block cell with nothing written is empty afterwards, whether it was cleared or lay past `max_row` |
| OasisReports.RewrittenOutside | oasis-monthly/generate.py:92-94 | rows above the block and columns to its right keep their values |
| OasisReports.RewrittenExtend | oasis-monthly/generate.py:96-97 | one more data row changes only the sheet row it lands on |
| OasisReports.RewriteBlock | oasis-monthly/generate.py:92-127 | clearing then writing gives the specified values; styles are kept; `max_row` grows at most to the last data row |
| OasisReports.TotalLettersAreOwnColumns | oasis-monthly/generate.py:166-169 | each total sums its own column: K is 11, P 16, Q 17, S 19 |
| OasisReports.CampaignRowPlacement | oasis-monthly/generate.py:96-163 | campaign row `idx` lands on raw row `idx+2` with its defaulted values and on calculation row `idx+4` with the same values; its formulas refer to that row and to the discount sheet's last row |
| OasisReports.DiscountMissingEmpty | oasis-monthly/generate.py:122-127 | a missing or NaN discount value leaves its cell empty |
| OasisReports.WriteTotals | oasis-monthly/generate.py:165-169 | only the four row-3 totals change, and each holds the corrected total `CampaignTotal` (see Findings) |
| OasisReports.CampaignReport | oasis-monthly/generate.py:79-172 | each of the three sheets gets exactly the specified values; styles are untouched |
| OasisReports.WriteSumRow | oasis-monthly/generate.py:217-234 | the sum row gets the label, the corrected sum `PointSum` (see Findings) with its yellow fill, and the medium borders; nothing else changes |
| OasisReports.ClearTemplateTail | oasis-monthly/generate.py:236-245 | F28 loses its value; unless the sum row is row 28, columns 1 to 5 from the row after the sum row to 28 are reset |
| OasisReports.PointReport | oasis-monthly/generate.py:175-248 | the raw sheet gets the specified values; every cell of the result sheet is as specified |
| OasisReports.PointRowPlacement | oasis-monthly/generate.py:195-215 | point row `idx` lands on row `idx+2` of both sheets; missing point counts read 0 and other missing values "" |
| OasisReports.PointSumRow | oasis-monthly/generate.py:217-234 | the sum row follows the data: the label in column 2, the yellow sum in column 5, a medium bottom border on columns 1 to 5 |
| OasisReports.PointTemplateTail | oasis-monthly/generate.py:236-245 | F28 ends up empty; below a sum row above 28, columns 1 to 5 through row 28 are empty; past row 28 only the values written are touched |

## Left out

- Reading and writing files is not modelled: PowerPoint and Excel loading and saving, template copies, `pd.read_csv`/`read_excel`, `glob`, `mkdir`, `exists`, moving inputs to the backup folder, and `print`. Listings, tables and the set of existing folder names are parameters.
- Directory entries are names only. A sub-directory whose name looks like a data file is treated like a file.
- `glob` order is the order of the listing parameter.
- `unicodedata.east_asian_width` is the parameter `isWide`.
- Floats carry their exact real value and their `str()` text as given. Shortest-repr printing is not computed.
- `lower()` folds ASCII letters only. Non-ASCII case folding is not modelled.
- XML-level helpers are not modelled: `_ensure_compact_spacing`, `_copy_slide`, `replace_image_by_ref` and `_remove_shape`. Chart drawing and slide merging are left out too. Runs are modelled as text and font size only.
- Aggregate.DonutRowsSpec: the other, per-brand `sort_values` by price and the `groupby` map order are not modelled. The donut starts from the brand rows as given.
- Aggregate.FillMissingWeeksSpec: pandas' `sort_values` is not stable. The model sorts stably, so rows of equal week may differ in order from the source. Weeks are integers; the source's ISO date strings sort in the same order.
- Aggregate.TaskDirName: today's date is a parameter; the clock is not read.
- `jcb/generate.py` `main` beyond the fill loop is not modelled. That covers the check for missing CSVs, which prints and exits, the per-client loop, and `generate_single_report`'s text substitutions (other than the helpers above) and removals.
- `_detect_shapes`' warning about missing shapes only prints, so it is left out.
- `fill_table_by_ref`'s early return for a non-table shape only prints a warning. `TableFill.Table` is a table by construction.
- Validate.ValidateSlides: it requires the template to have a table. With no template table the source crashes on the first generated slide that has one. The failing import of `SHAPES` is a row under "## Findings".
- Issue message texts are not modelled; issues carry their kind and the numbers compared.
- OasisInputs.RoleOfSpec: the campaign test names "商品×割引率" twice with identical text, so it is one keyword here.
- OasisInputs.PlanFor: the `exists` checks that exit 1 and the final exit 1 when no report is made are left out. Plan(false, false) is the case where that exit happens.
- OasisReports.RewriteBlock: reading a cell through `ws.cell()` also creates it. The model does not tell a created empty cell from an absent one; both read as empty.
- OasisReports.CampaignReport: the source writes every campaign column even when the value is missing. The model skips None. The two agree, because the campaign defaults are never None.
- OasisReports.PointReport: when the sum row lies past row 28 (more than 26 point rows), row 28 keeps the template's styles. The model keeps them too and states only the values past row 28.
- `iterrows` indices are taken as positions 0, 1, 2…, the index `read_csv` and `read_excel` produce.
- TableFill.CellValue: it groups integer values too, which the source as written does not do for integer columns. It is the corrected rule of the third "## Findings" row, and the table fill uses it.
- TableFill.FilledGridDataRow: a data cell shows the corrected `CellText` of the third "## Findings" row, so an integer column of 1000 or more shows grouped digits where the source as written shows plain digits.
- TableFill.FillRow: the loop writes the corrected `CellText` of the third "## Findings" row, so integer columns are grouped where the source as written leaves them as plain digits.
- TableFill.Table.FillByRef: the table is filled through the corrected `CellText` of the third "## Findings" row, so integer columns are grouped where the source as written leaves them as plain digits.
- OasisReports.WriteTotals: with no campaign rows it writes 0 where the source writes `=SUM(X4:X3)`. It uses the corrected `CampaignTotal` of the first "## Findings" row.
- OasisReports.CalcValue: with no campaign rows the four row-3 cells are 0, not the source's `=SUM(X4:X3)`, because they use the corrected `CampaignTotal`.
- OasisReports.CampaignReport: with an empty campaign file, row 3 holds the corrected total 0, not the source's circular `=SUM(K4:K3)`.
- OasisReports.WriteSumRow: with no point rows it writes 0 where the source writes `=SUM(E2:E1)`. It uses the corrected `PointSum` of the second "## Findings" row.
- OasisReports.ResultCell: with no point rows, E2 is 0, not the source's `=SUM(E2:E1)`, because it uses the corrected `PointSum`.
- OasisReports.PointReport: with an empty point file, the result sheet's sum cell is the corrected 0, not the source's circular formula.
- OasisReports.PointSumRow: the sum cell is the corrected `PointSum`, so with no point rows it is 0, not `=SUM(E2:E1)`.

## Findings

| source | as written | input that shows it | evidently intended | confidence | as-written member | corrected member |
|---|---|---|---|---|---|---|
| oasis-monthly/generate.py:165-169 | the four row-3 totals are `=SUM(X4:X{n+3})` | a campaign file with no data rows: K3 gets `=SUM(K4:K3)`. A spreadsheet reads that as K3:K4, which includes K3 itself, so the reference is circular | the totals sum data rows 4 to n+3, and are 0 when there are none | not executed | OasisReports.CampaignTotalAsWritten (OasisReports.CampaignTotalCircular) | OasisReports.CampaignTotal (OasisReports.CampaignTotalSpec) |
| oasis-monthly/generate.py:218-222 | the sum cell E{n+2} is `=SUM(E2:E{n+1})` | a point file with no data rows: E2 gets `=SUM(E2:E1)`, which covers E2 itself, so the reference is circular | the sum covers data rows 2 to n+1, and is 0 when there are none | not executed | OasisReports.PointSumAsWritten (OasisReports.PointSumCircular) | OasisReports.PointSum (OasisReports.PointSumSpec) |
| jcb/generate.py:210-220 | a value is grouped only if `isinstance(val, (int, float))` holds | a brand file whose `total_price` column holds only integers, e.g. 1234567: pandas reads it as numpy.int64, which is not a Python `int`, so the cell shows "1234567円" | every number outside the brand column grouped: "1,234,567円" | not executed; rests on numpy.int64 not being a subclass of `int` | TableFill.CellValueAsWritten (TableFill.IntColumnUngrouped) | TableFill.CellValue (TableFill.CellTextRules) |
| jcb/validate.py:17 | `from config import TEMPLATE_PATH, SHAPES` | loading `validate.py` with `jcb/config.py` as it is: `SHAPES` is not defined there, so the import raises ImportError before `main` runs | import `TEMPLATE_PATH` only; `SHAPES` is never used | not executed | Validate.ImportAsWrittenFails | Validate.ImportSucceeds |
