# A verified model of the table pipeline of `parse.py`

`parse.py` reads a settings file and a text, cuts the text into lines, and
looks up the syllables of every word. It narrows over-long lines to a
syllable budget, hands each kept line to the `prosodic` metrical parser, and
turns every parse into one row of a table. Finally it reshapes the table:
aggregate columns, one row per line, a `parse_id`, pruned and reordered
columns, sorted rows. This project models that pipeline in Dafny and proves
what each stage promises.

| file | module | what of `parse.py` it models |
|---|---|---|
| `wrappers.dfy` | `Wrappers` | `Option` and `Result` |
| `text.dfy` | `Text` | ASCII `strip`, `lower`, `isdigit`, `int`/`str` conversions, `' '.join`, searching a string |
| `windower.dfy` | `Windower` | `get_window_indices`: the `beginning`, `end` and `middle` loops |
| `lines.dfy` | `LineSelection` | the line-selection loop of `process_text` |
| `sentences.dfy` | `Sentences` | `split_into_sentences` |
| `settings.dfy` | `SettingsFile` | `read_input_file` |
| `table.dfy` | `Table` | a row as a map from column name to cell |
| `rows.dfy` | `RowBuilder` | the parse filter and row-assembly loop of `run_parse` |
| `columns.dfy` | `Columns` | the column-list operations of `process_output`: `_sum` interleaving, dropping, moving `parse_id` to the front |
| `output.dfy` | `OutputShaper` | `process_output` |

## Form of the model

- **Loops become methods.** Each loop of the source is a method with the
  source's loop, proved equal to a reference function:
  - the three window modes;
  - the word loop and the line loop of `process_text`;
  - the `while i < len(lines)` loop of `read_input_file`, including its
    inner text-block loop;
  - the three nested loops of `run_parse`: over lines, parse lists and parses;
  - the two loops of the `_sum` reorder.
- **Lemmas state what the source promises about those functions:**
  - shortest prefix and shortest suffix;
  - the alternating growth of `middle` and where it stops;
  - which lines are skipped, kept or rejected;
  - the typed values and the `constraints` tuple of the settings;
  - group counts and sums;
  - one best row per line;
  - the column layout;
  - sorted rows that are a permutation of the input.
- **`process_output`** is a chain of pure table operations in the source
  (pandas expressions). Here it takes a column list and rows and is written
  as functions. The method `ProcessOutput` runs them in the source's order.

**Inputs supplied by the caller.** Calls into code outside the core become
inputs:
- for each word token, the syllable count the dictionary gives, or `None`;
- for each kept line, the parse lists the parser returned, or the exception
  raised on it and whether a handler guarded the call that raised it;
- the settings file as the list of its lines.

**Choices in the model:**
- Python `int` is Dafny `int`/`nat`.
- Strings are `seq<char>` with ASCII case and whitespace rules.
- Scores and normalised counts are integers.

**Where the model follows the code rather than the description of the
system:**
- The table header has a `parse_txt` column.
- `end` always takes at least one token, since it moves before it tests.
- Every `*` column present when `process_output` starts gets a `_sum` twin
  (parse.py:352). That includes the `*X_norm` columns.
- `parse_num_viols` sums every `*` entry of the parse statistics.
- A missing `*total` gives a `parse_score` of -1.
- **URL words** (`http`, `https`, `www`) are left out of the syllable counts
  but not out of the word tokens, so the window indices can land on the
  wrong words. `LineSelection.UrlWordShiftsWindow` shows this on a line.
- **Parser errors:** in non-exhaustive mode the guarded `parse` call
  catches only the empty-parse error; in exhaustive mode the guarded
  `parse_exhaustive` call catches every error. An exception outside the
  guarded calls escapes `run_parse` in both modes. Such an exception can
  come from building the text model (parse.py:263), building the meter
  (parse.py:277-282), or a row's line and statistics (parse.py:298-299).
  See `RowBuilder.RowsFailure`.
- **Empty results:** the run fails only when no line is selected. An empty
  row table is not an error.

## Model

| member | source | states |
|---|---|---|
| Text.LStrip | parse.py:66 | the result is a suffix of the input; exactly the leading ASCII whitespace is removed |
| Text.RStrip | parse.py:74 | the result is a prefix of the input; exactly the trailing ASCII whitespace is removed |
| Text.Strip | parse.py:59 | the result begins and ends with a non-space character or is empty |
| Text.RStripNewlines | parse.py:74 | exactly the trailing `\n` characters are removed |
| Text.Lower | parse.py:92 | same length; every character is lowered by the ASCII rule |
| Text.ParseNatToString | parse.py:102 | `int` reads back every natural written in decimal |
| Text.ParseIntToString | parse.py:438 | integers (with sign) read back after `str` |
| Text.IndexOf | parse.py:435 | finds the first occurrence of a character, or reports that there is none |
| Text.Find | parse.py:66 | finds the first occurrence of a pattern, or reports that there is none |
| Windower.PrefixEnd | parse.py:197-203 | the least end at or after `k` whose prefix reaches the budget, or the length when none does |
| Windower.BeginningWindow | parse.py:197-203 | the `beginning` loop returns `(0, e)` for the shortest prefix reaching the budget |
| Windower.ShortestPrefixUnique | parse.py:197-203 | any shortest prefix that reaches the budget (or the whole line) is the one `beginning` returns |
| Windower.SuffixStart | parse.py:205-213 | the greatest start at or below `k` whose suffix reaches the budget, or 0 |
| Windower.EndStart | parse.py:205-213 | the start of `end`: its suffix reaches the budget or it is 0, no later suffix does, and at least one token is kept |
| Windower.EndWindow | parse.py:205-213 | the `end` loop returns `(EndStart, len)` |
| Windower.EndIsShortestSuffix | parse.py:205-213 | with a positive budget, every suffix shorter than the one `end` returns falls short |
| Windower.PivotBelow | parse.py:220-222 | the largest index up to `k` whose prefix sum is at most half the total |
| Windower.Pivot | parse.py:216-222 | the pivot's prefix sum is at most `sum // 2`; every longer prefix exceeds it |
| Windower.PivotUnique | parse.py:216-222 | any index with these two properties is the pivot |
| Windower.MiddlePivot | parse.py:216-222 | the midpoint loop returns the pivot |
| Windower.SpanIsSum | parse.py:225-236 | the window sum kept by the growth loop is `sum(counts[left:right])` |
| Windower.GrowFrom | parse.py:226-236 | the growth loop stops within `len` iterations with `0 <= left <= pivot <= right <= len` |
| Windower.MiddleSpan | parse.py:215-237 | the `middle` window contains the pivot |
| Windower.LeftHalfStep | parse.py:227-229 | the left half-step moves the left edge one token (unless it is at 0) and adds that token's count |
| Windower.RightHalfStep | parse.py:232-234 | the right half-step moves the right edge one token (unless it is at the end) and adds that token's count |
| Windower.GrowFromExhausted | parse.py:226 | with both sides exhausted the loop ends with the full line |
| Windower.GrowFromLeft | parse.py:227-231 | reaching the budget after the left half-step stops the growth there |
| Windower.GrowFromRight | parse.py:230-236 | falling short after the left half-step and reaching the budget after the right one stops the growth there |
| Windower.GrowFromNext | parse.py:226-236 | falling short after both half-steps continues with the next iteration |
| Windower.MiddleGrow | parse.py:223-237 | the growth loop returns the window `GrowFrom` describes |
| Windower.MiddleWindow | parse.py:215-237 | the `middle` code returns `MiddleSpan` |
| Windower.WindowIndices | parse.py:196-240 | `get_window_indices` returns the range of its mode, or the invalid-window error |
| Windower.WindowIsRange | parse.py:196-240 | a mode succeeds exactly when it is `beginning`, `middle` or `end`; a result is a range within the line |
| Windower.GrowAlternates | parse.py:226-236 | growth alternates left first: while neither side is exhausted the left side has grown as much as the right or one more |
| Windower.MiddleAlternates | parse.py:215-237 | the `middle` window has grown alternately from the pivot, left first |
| Windower.GrowStopsFirst | parse.py:226-236 | growth stops at a window reaching the budget or covering the line; every earlier half-step window fell short; the window returned is the one of the half-step where the loop stopped (`StopsAt`) |
| Windower.GrowStopsAt | parse.py:226-236 | at the final iteration `i` the window is the left half-step's window reaching the budget, or the right half-step's window reaching it after the left one fell short, or the full line with both sides exhausted |
| Windower.MiddleStopsFirst | parse.py:215-237 | the `middle` window reaches the budget or is the full line; every window passed before it fell short; it is the window of the half-step where the growth from the pivot stopped |
| Windower.BeginningExample | parse.py:197-203 | six one-syllable words with budget 4 give the first four words |
| LineSelection.CountsUnknown | parse.py:170-183 | a line's counts are missing exactly when some non-URL word has no syllable count |
| LineSelection.CountsUnknownSticky | parse.py:175-178 | once an unknown word is met the line is skipped, whatever follows |
| LineSelection.CountSyllables | parse.py:167-183 | the word loop skips exactly when a word is unknown, and otherwise returns the counts of the non-URL words |
| LineSelection.GatherFailureSticky | parse.py:239-242 | once `get_window_indices` has raised, later lines change nothing |
| LineSelection.GatherNext | parse.py:185-248 | one iteration: a skip adds one to the count, a kept line is appended, an error ends the loop |
| LineSelection.ProcessText | parse.py:157-253 | the line loop returns `SelectLines`: the kept lines and skip count, or the error |
| LineSelection.LineOutcome | parse.py:167-248 | definition: one line is skipped, kept (whole or windowed) or raises the window error; `SkippedIff`, `NoWindowWithinBudget` and `RaisedIsWindowError` state its cases |
| LineSelection.SelectLines | parse.py:185-253 | definition: the kept lines and skip count, or the first error, or the no-lines error; `SelectedLines`, `NoLinesSelectedIff` and `InvalidWindowIff` state its results |
| LineSelection.SkippedIff | parse.py:185-194 | a line is skipped exactly when it has an unknown word or fewer than `min_syllables` syllables; it raises exactly when it must be windowed under an invalid or null `window` |
| LineSelection.NoWindowWithinBudget | parse.py:194-246 | a line within the budget (or with `max_syllables` unset or 0) is kept whole, its words joined by spaces |
| LineSelection.OutcomesPositioned | parse.py:248 | every kept line carries its 1-based position and its own original text |
| LineSelection.GatherFailure | parse.py:239-242 | the loop fails exactly when some line raised, and fails with that line's error |
| LineSelection.GatherCount | parse.py:185-248 | kept lines plus skipped lines make up all the lines |
| LineSelection.KeptAtSnoc | parse.py:248 | appending one line's outcome keeps every kept line at its position and the positions increasing |
| LineSelection.GatherKept | parse.py:248 | every kept line is the outcome at its position; positions strictly increase |
| LineSelection.GatherKeptIff | parse.py:185-248 | the positions kept are exactly those of the lines that were kept |
| LineSelection.RaisedIsWindowError | parse.py:239-240 | the only error a line can raise is the invalid-window one |
| LineSelection.NoLinesSelectedIff | parse.py:250-251 | the run fails with "no lines met the criteria" exactly when every line is skipped |
| LineSelection.InvalidWindowIff | parse.py:239-242 | the run fails with the window error exactly when some line raises it |
| LineSelection.SelectedLines | parse.py:162-253 | on success, at least one line is kept; kept plus skipped is the line count; every kept line is its line at its 1-based position; positions strictly increase |
| LineSelection.UrlLineCounts | parse.py:170-179 | the `http` token is not counted |
| LineSelection.UrlLineWindow | parse.py:197-203 | three one-syllable counts with budget 2 give `(0, 2)` |
| LineSelection.UrlWordShiftsWindow | parse.py:164-248 | "http a b c" with budget 2 under `beginning` is kept as "http a": the indices into the counts are applied to all tokens |
| Sentences.WordEnd | parse.py:129 | the end of the delimiter-free run starting at `k` |
| Sentences.RunEnd | parse.py:129 | the end of the delimiter run starting at `k` |
| Sentences.PiecesFree | parse.py:129 | no piece of `re.split` contains a delimiter |
| Sentences.RunsFrom | parse.py:125-129 | the runs the split cuts at: one fewer than the pieces, each non-empty and made of delimiters only |
| Sentences.PiecesRoundTrip | parse.py:129 | putting the runs back between the pieces gives the text again |
| Sentences.PiecesInnerNonEmpty | parse.py:129 | every piece but the first and last is non-empty, so runs are maximal |
| Sentences.Pieces | parse.py:129 | `re.split` of the whole text: the runs woven back give the text, no piece holds a delimiter, no inner piece is empty |
| Sentences.SplitIntoSentences | parse.py:124-130 | definition: the cleaned pieces; `SentenceShape` and `SentencesKeepText` state their shape and contents |
| Sentences.StripSentence | parse.py:130 | a stripped non-empty piece is a sentence: non-empty, no surrounding whitespace, no delimiter |
| Sentences.CleanShape | parse.py:130 | stripping and dropping empty pieces leaves only sentences |
| Sentences.SentenceShape | parse.py:124-130 | every sentence returned is non-empty, has no whitespace at either end and contains no delimiter of the current mode |
| Sentences.VisibleStrip | parse.py:130 | stripping loses no character that is neither space nor delimiter |
| Sentences.PiecesVisible | parse.py:129 | splitting loses no character that is neither space nor delimiter |
| Sentences.CleanVisible | parse.py:130 | dropping empty pieces and stripping loses no such character |
| Sentences.SentencesKeepText | parse.py:124-130 | the sentences, concatenated, hold exactly the text's non-space, non-delimiter characters, in order |
| Sentences.EmptyTextNoSentences | parse.py:124-130 | a text of only spaces and delimiters gives no sentences |
| SettingsFile.MemberIff | parse.py:39-50 | key-set membership is list membership |
| SettingsFile.KeyListIsAllKeys | parse.py:51 | the known keys are the union of the integer, boolean and string keys |
| SettingsFile.LowerIsIff | parse.py:92 | the case-insensitive comparison holds exactly when `lower()` gives the literal |
| SettingsFile.Put | parse.py:109 | dictionary assignment: a new key is appended; an existing key keeps its place and takes the new value |
| SettingsFile.BlockEnd | parse.py:68-71 | the first line at or after `j` whose stripped form starts with `<known key> =`, or the end of the file |
| SettingsFile.SplitAssignment | parse.py:78-83 | a line splits at `=` exactly when it contains one |
| SettingsFile.Convert | parse.py:91-107 | a value conversion fails only with a bad-boolean, bad-integer or bad-window error, at line `n + 1` |
| SettingsFile.Assign | parse.py:78-110 | every error of an assignment line names that line |
| SettingsFile.Store | parse.py:85-110 | a split assignment fails only with a key or value error, naming its line |
| SettingsFile.AssignLine | parse.py:78-110 | the assignment code computes `Assign` |
| SettingsFile.RunStep | parse.py:57-110 | an assignment line either ends the loop with its error or continues with the updated dictionary |
| SettingsFile.BlockBody | parse.py:68-73 | the text-block loop stops at `BlockEnd` and concatenates the raw lines before it |
| SettingsFile.ReadTextBlock | parse.py:65-76 | a `text =` block yields the text value of its lines and the index where parsing resumes |
| SettingsFile.ConcatStep | parse.py:72 | appending one more raw line to the text block |
| SettingsFile.ReadInputFile | parse.py:35-113 | the parser returns `ReadSettings`: the dictionary and `constraints`, or the first error |
| SettingsFile.Run | parse.py:57-110 | definition: the line loop; `RunConsistent` and `RunErrorLine` state the invariant it keeps and where its errors point |
| SettingsFile.ReadSettings | parse.py:35-113 | definition: the loop from an empty dictionary; `SettingsWellFormed` states the shape of its result |
| SettingsFile.TrueConstraintsSnoc | parse.py:95-96 | a new entry adds its key to the constraints exactly when it is a constraint key set to true |
| SettingsFile.TrueConstraintsSame | parse.py:95-96 | updating non-constraint values leaves the constraints unchanged |
| SettingsFile.PutConsistent | parse.py:95-109 | storing a typed value keeps the entries distinct, known and typed, and `constraints` equal to the true constraint keys in order |
| SettingsFile.ConvertTyped | parse.py:91-107 | a converted value has its key's type |
| SettingsFile.AssignConsistent | parse.py:78-110 | an assignment line keeps that invariant |
| SettingsFile.TextIsStrKey | parse.py:43-48 | `text` is a string key and nothing else |
| SettingsFile.TextConsistent | parse.py:65-76 | a text block keeps that invariant, overwriting any earlier `text` |
| SettingsFile.RunConsistent | parse.py:57-110 | the whole loop keeps that invariant |
| SettingsFile.SettingsWellFormed | parse.py:35-113 | the settings have distinct, known, typed keys, and `constraints` is exactly the constraint keys set to true, in file order |
| SettingsFile.RunErrorLine | parse.py:57-110 | an error names a line of the file at or after the start |
| SettingsFile.MissingEqualsIff | parse.py:78-79 | the missing-`=` error is raised exactly when the line has no `=` |
| SettingsFile.AssignSplits | parse.py:81-83 | a line with `=` is split at its first `=` and both sides are stripped |
| SettingsFile.KeyErrorsIff | parse.py:85-89 | the unknown-key error is raised exactly for unknown keys; the duplicate-key error exactly for known keys already set |
| SettingsFile.StoreConverts | parse.py:91-110 | a fresh known key gets its converted value appended, or fails with the conversion's error |
| SettingsFile.WindowIsStrKey | parse.py:43-48 | `window` is a string key and nothing else |
| SettingsFile.BoolValues | parse.py:91-97 | a boolean key fails exactly when its value is neither `true` nor `false` in any case; otherwise it is `lower() == "true"` |
| SettingsFile.IntValues | parse.py:99-102 | an integer key fails exactly when its value is not all digits; otherwise it is the value read in decimal |
| SettingsFile.IntRoundTrip | parse.py:99-102 | a natural written in decimal is read back as itself |
| SettingsFile.StrValues | parse.py:104-107 | a string value is null exactly when it is `none` in any case; only `window` can fail, exactly when its value is not null, not empty and not a mode |
| SettingsFile.SkipStep | parse.py:61-63 | a blank or comment line changes nothing |
| SettingsFile.BlockValueNull | parse.py:74-75 | a text block is null exactly when it reads `none` in any case |
| SettingsFile.NewlinesStripped | parse.py:74 | stripping trailing newlines removes exactly the final `\n` characters |
| SettingsFile.BlockValueText | parse.py:74-75 | a non-null text block is the raw text without its trailing newlines |
| Table.Project | parse.py:403 | selecting columns keeps exactly the named columns present, with their values |
| RowBuilder.AdmittedIff | parse.py:291-296 | a parse passes exactly when it matches the meter filter (if set) and has five peaks (if pentameter is set) |
| RowBuilder.AdmittedAppend | parse.py:289-296 | filtering distributes over concatenation, so order is kept |
| RowBuilder.AdmittedIdempotent | parse.py:291-296 | filtering twice is filtering once |
| RowBuilder.AdmittedAll | parse.py:291-296 | with no filter set every parse passes |
| RowBuilder.ParseList | parse.py:290-325 | the inner loop appends one row per admitted parse, in order |
| RowBuilder.ParseLine | parse.py:289-325 | the loop over parse lists appends the rows of each list in order |
| RowBuilder.RunParse | parse.py:262-325 | the line loop returns `Rows` or the escaping parser error |
| RowBuilder.Rows | parse.py:262-325 | definition: the rows of all kept lines or the escaping error; `RowsFailure`, `RowsInLineOrder` and `LineRowsFlatten` state its results |
| RowBuilder.MakeRow | parse.py:298-324 | definition: the row of one parse; `RowColumns` and `RowFields` state its columns and key cells |
| RowBuilder.RowsFailureSticky | parse.py:262-299 | once an error escapes, later lines change nothing |
| RowBuilder.ListRowsAdmitted | parse.py:290-325 | a list's rows are one row per admitted parse |
| RowBuilder.LineRowsFlatten | parse.py:289-325 | a line's rows are one row per admitted parse of all its lists, in order |
| RowBuilder.RowColumns | parse.py:302-336 | every row has exactly the header's columns |
| RowBuilder.RowFields | parse.py:302-322 | a row carries its line's position, original and processed text, and the parse's rank |
| RowBuilder.RowsFailure | parse.py:262-299 | `run_parse` fails exactly when some line raised outside the guarded calls, or raised other than the empty-parse error inside the non-exhaustive `parse` call; it fails with the first such line's error |
| RowBuilder.LineRowsOfLine | parse.py:302-321 | all rows of a line carry that line's `input_index` and `source_text` |
| RowBuilder.RowsInLineOrder | parse.py:262-325 | every row comes from a kept line, and rows are grouped by line in ascending `input_index` |
| Columns.SumColumns | parse.py:387 | exactly the columns ending in `_sum` |
| Columns.RemoveFirst | parse.py:396 | `list.remove` takes one element out |
| Columns.Leftover | parse.py:398-401 | exactly the columns not yet placed |
| Columns.PairedSums | parse.py:389-396 | a `_sum` column placed by the first loop is the twin of an earlier base column |
| Columns.PairedNoTwin | parse.py:389-396 | a `_sum` column twin to none of the columns seen is not placed |
| Columns.PairedWithin | parse.py:389-396 | the first loop only places existing columns |
| Columns.PairedCovers | parse.py:389-392 | the first loop places every non-`_sum` column |
| Columns.TwinNotPlaced | parse.py:393-396 | a column's twin has not been placed before the column itself |
| Columns.InterleaveSums | parse.py:385-403 | the two reorder loops compute `Interleave` |
| Columns.Interleave | parse.py:385-403 | definition: the paired columns, then the leftovers; `InterleaveSameColumns`, `InterleaveDistinct`, `InterleaveKeepsOthers` and `InterleaveAdjacent` state its layout |
| Columns.InterleaveKeepsOthers | parse.py:385-403 | the non-`_sum` columns keep their relative order |
| Columns.InterleaveSameColumns | parse.py:385-403 | the reorder has the same columns |
| Columns.InterleaveDistinct | parse.py:385-403 | the reorder repeats no column |
| Columns.PairedAdjacent | parse.py:389-396 | the first loop places each base column's existing twin right after it |
| Columns.InterleaveAdjacent | parse.py:385-403 | each `*X_sum` sits right after `*X` |
| Columns.AddColumn | parse.py:356 | `df[c] = …` adds `c` if absent |
| Columns.Without | parse.py:412 | dropping keeps exactly the columns not named |
| Columns.WithoutDistinct | parse.py:412 | dropping keeps columns distinct |
| Columns.WithoutAdjacent | parse.py:412 | dropping columns keeps two kept neighbours adjacent |
| Columns.WithoutNone | parse.py:412 | dropping absent names changes nothing |
| Columns.MoveToFrontShape | parse.py:428-431 | `parse_id` becomes first, the other columns keep their order, nothing is lost or repeated |
| Columns.MoveToFrontAdjacent | parse.py:428-431 | moving `parse_id` keeps other neighbours adjacent |
| OutputShaper.StarColumns | parse.py:352 | exactly the columns starting with `*`, captured before new columns are added |
| OutputShaper.SumNames | parse.py:381 | the `_sum` name of each `*` column |
| OutputShaper.BestUpTo | parse.py:366 | the positions `idxmin` picks, increasing |
| OutputShaper.BestUpToComplete | parse.py:366 | every first row of minimal rank of its line is picked |
| OutputShaper.CollapseOnePerLine | parse.py:364-366 | after collapse no two rows share an `input_index` |
| OutputShaper.CollapseBest | parse.py:364-366 | every line of the input keeps a row, and it is the first row of minimal `parse_rank` of that line |
| OutputShaper.Collapse | parse.py:364-366 | keeps no more rows than it is given; `CollapseOnePerLine` and `CollapseBest` state which rows it keeps |
| OutputShaper.GroupBest | parse.py:366 | the minimal-rank first row of a line among the first `n` rows, or none |
| OutputShaper.Group | parse.py:356 | exactly the rows whose key column has the given value |
| OutputShaper.AggregatesOfGroup | parse.py:356-382 | the group count is the group's size; the group sum is its total |
| OutputShaper.MUCounts | parse.py:355-356 | `MU` is the number of rows sharing the row's `source_text` |
| OutputShaper.WithMU | parse.py:355-356 | keeps the row count; `MUCounts` states the `MU` cell of each row |
| OutputShaper.MTSTotals | parse.py:359-360 | `MTS` is the sum of `parse_score` over rows sharing the row's `input_index` |
| OutputShaper.WithMTS | parse.py:359-360 | keeps the row count; `MTSTotals` states the `MTS` cell of each row |
| OutputShaper.WithSumsValues | parse.py:379-382 | each `*X_sum` is the sum of `*X` over rows sharing `source_text` |
| OutputShaper.WithSums | parse.py:379-382 | keeps the row count; `WithSumsValues` and `ShapedSums` state each `_sum` cell |
| OutputShaper.ShapedSums | parse.py:379-382 | in the shaped table each `*X_sum` is the group total of `*X` |
| OutputShaper.NoDotInNumber | parse.py:376 | a decimal integer has no dot, so `parse_id` has at most one |
| OutputShaper.IdRoundTrip | parse.py:368-444 | the sort key read back from `parse_id` is `(input_index, parse_rank)`, or `(input_index, 0)` when collapsed |
| OutputShaper.MakeId | parse.py:368-376 | definition: `input_index`, then `.` and `parse_rank` unless collapsed; `IdRoundTrip` states that the sort key reads it back |
| OutputShaper.WithIds | parse.py:368-376 | keeps the row count; `WithIdsKeys` states the key of each row afterwards |
| OutputShaper.WithIdsKeys | parse.py:368-444 | every row's sort key after the ids are set is its `(input_index, rank)` |
| OutputShaper.KeyCellsKept | parse.py:380-382 | adding `_sum` columns leaves `parse_id`, `input_index` and `parse_rank` unchanged |
| OutputShaper.ShapedKeys | parse.py:364-444 | every shaped row's sort key is its `(input_index, rank)` |
| OutputShaper.SortBySorted | parse.py:447 | the sort's result is sorted by the key |
| OutputShaper.SortByPermutes | parse.py:447 | the sort's result is a permutation |
| OutputShaper.SortRowsSorted | parse.py:447 | rows are sorted by `(_input_index, _parse_rank)` |
| OutputShaper.SortRowsPermutes | parse.py:447 | sorting neither loses nor adds rows |
| OutputShaper.SortRows | parse.py:433-447 | keeps the row count; `SortRowsSorted` and `SortRowsPermutes` state that it sorts and permutes |
| OutputShaper.IdColumnsMembers | parse.py:355-376 | after the id step the columns are the input's plus `MU`, `MTS`, `parse_id` as set, without `parse_rank` when collapsed |
| OutputShaper.IdColumnsDistinct | parse.py:355-376 | those columns are distinct |
| OutputShaper.BeforeDropsMembers | parse.py:355-403 | before the drops the columns are those plus the `_sum` twin of every `*` column when sums are on |
| OutputShaper.BeforeDropsDistinct | parse.py:355-403 | those columns are distinct |
| OutputShaper.ParseIdNotDropped | parse.py:406-424 | `parse_id` is on neither drop list |
| OutputShaper.ParseIdSurvives | parse.py:405-428 | `parse_id` is present when the reorder and the sort run |
| OutputShaper.OutputLayout | parse.py:405-450 | the output columns begin with `parse_id`, are distinct, and are exactly the columns before the drops minus the drop lists (norms only when off) and `input_index` |
| OutputShaper.BeforeDropsAdjacent | parse.py:379-403 | with sums on, each `*X_sum` is right after `*X` before the drops |
| OutputShaper.PrunedAdjacent | parse.py:405-425 | the drops keep two kept neighbours adjacent |
| OutputShaper.FrontAdjacent | parse.py:428-450 | moving `parse_id` and dropping `input_index` keeps other neighbours adjacent |
| OutputShaper.AfterDropsAdjacent | parse.py:405-450 | the whole column tail keeps two kept neighbours adjacent |
| OutputShaper.OutputSumsAdjacent | parse.py:379-450 | in the output each kept `*X_sum` sits immediately after `*X` |
| OutputShaper.OutputOrder | parse.py:433-450 | the output rows are the shaped rows sorted, a permutation of them, non-decreasing in `(input_index, rank)` with rank 0 when collapsed, projected onto the output columns |
| OutputShaper.OutputColumns | parse.py:405-450 | definition: the columns after the drops; `OutputLayout` and `OutputSumsAdjacent` state their layout |
| OutputShaper.OutputRows | parse.py:433-450 | definition: the shaped rows, sorted when `parse_id` is present, projected; `OutputOrder` states their order |
| OutputShaper.ProcessOutput | parse.py:348-453 | `process_output` returns `OutputColumns` and `OutputRows` |

## Left out

- Package installation through pip (parse.py:5-17): a process side effect.
- File input and output, which are I/O. This covers:
  - reading the settings file (parse.py:53-54), which is replaced by a list of lines;
  - reading text, csv or xlsx input (parse.py:133-155), including its unsupported-format and missing-input errors;
  - writing the output and checking its extension (parse.py:456-493).
- The `prosodic` calls are foreign code and are taken as inputs:
  - the syllable lookup (parse.py:174), given as each token's count or `None`;
  - `TextModel`, `Meter`, `parse` and `parse_exhaustive` (parse.py:263-287), and `parse.line` or `Line` (parse.py:298), given as parse lists or the kind of exception and where it was raised;
  - `stats_d` (parse.py:299), given as a list of pairs.
- The parse parameters passed to the parser (`max_s`, `max_w`, `constraints`, `resolve_optionality`) are left out: only the parser reads them.
- Floating point: `round` on scores and norms (parse.py:311-319) and `astype(int)` on `MTS` (parse.py:360). Scores are integers here.
- The Unicode word tokenizer (parse.py:164) is left out. A line arrives as its word tokens.
- `strip`, `lower` and `isdigit` follow ASCII rules, not Unicode.
- `print` diagnostics and the summary line (parse.py:160, 177, 181, 274, 286, 341-343), `main`, and the pandas display options.
- The mapping from the settings dictionary to the limits, options and flags the stages read is left out. `Limits` is not built from the dictionary; `RowBuilder.OptionsOf` and `OutputShaper.FlagsOf` are given without lemmas. The `constraints` tuple is a field beside the entries, not an entry.
- The pandas behaviours for an empty table or a missing column (a `KeyError`) are not modelled. A missing cell reads as the empty string.
- OutputShaper.Collapse: keeps the chosen rows in table order, whereas pandas orders the groups by `input_index`. The final sort sorts them by `input_index` anyway.
- OutputShaper.SortRows: is a stable insertion sort. `sort_values` does not promise stability, so rows with equal `(input_index, rank)` keys may come out in another order.
- OutputShaper.SortKey: reads a rank from each row's own `parse_id`. pandas decides once, for the whole table, whether a second part exists. The two agree because every `parse_id` of a table is built the same way.
- OutputShaper.ShapedSums: requires that no `*` column already ends in `_sum`, which holds for the table `run_parse` builds. A pre-existing `_sum` column would be overwritten by pandas; that case is not modelled.
- OutputShaper.WithSumsValues: requires that no column of its list is the `_sum` twin of another, for the same reason.
- SettingsFile.RunErrorLine: states that the reported line lies in the file, not that it is the first bad line. That follows from `Run` stopping at the first error and is not restated as a lemma.
