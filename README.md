# RehabServE dashboard — a verified Dafny model

This project models the computational core of the RehabServE dashboard. The dashboard reads survey answers about community-based rehabilitation centres (PDKs) from a Google Sheet. It scores six service dimensions on a 0–7 Likert scale and presents the results: KPI cards, charts, a scorecard, a health-outcomes panel, an assistant that answers questions, and an access-code gate.

The model follows the program's structure, one module per concern:

| module | file | what it models |
|---|---|---|
| `Base`, `Text`, `Dict`, `SeqUtil` | base.dfy, text.dfy, dict.dfy, seq_util.dfy | shared vocabulary: `Option`/`Result`, JavaScript string operations (`trim`, ASCII `toLowerCase`/`toUpperCase`, `includes`, `indexOf`), JavaScript objects as insertion-ordered association lists, sums, means and a stable descending sort |
| `Columns` | app_columns.dfy | spreadsheet column letters and 0-based indices (`excelColumnToIndex`, `indexToExcelColumn`) as loops |
| `Sheet` | app_sheet.dfy | unwrapping the gviz response, the header/row zip, per-cell score parsing |
| `Tables` | app_tables.dfy | the column → question and question → dimension tables, and the three-level column routing |
| `Pdk` | app_pdk.dfy | the PDK column search, the PDK row filter and `buildGoogleSheetUrl` |
| `Aggregate` | app_aggregate.dfy | the row/column accumulation pass of `processRawData` and the respondent-group counts |
| `Summary` | app_summary.dfy | the averaging, sorting and summary half of `processRawData`, plus the loop methods of the whole pass |
| `Totals` | app_totals.dfy | what the pass adds up: each dimension's list against the scores pushed to it, the question lists against the scores of the question columns, and the independence of the averages from the order of the data rows |
| `Insights` | insights.dfy | the insights panel's bands and icons, the narrative's band choices, the respondent-group labels |
| `Landing` | landing.dfy | the access-code gate as a class whose methods update its fields |
| `ChatText`, `Chatbot` | chat_text.dfy, chatbot.dfy | the assistant: intent detection, role words, status bands, `removeMarkdown`, replies, and the session state `getBotResponse` updates |
| `Charts`, `CategoryBreakdown`, `Funnel`, `HorizontalBar`, `StackedBar`, `Scorecard`, `HealthOutcomes` | chart_*.dfy, charts.dfy, health_outcomes.dfy | what each chart computes from the dimension, question and raw data |

Conventions:

- Scores are exact `real` numbers. The model does not capture IEEE-754 rounding.
- A JavaScript object whose key order matters is an association list: assigning to an existing key updates it in place, and a new key is appended.
- Code that the source writes as loops becomes a `method` with loop invariants, proved equal to a specification function (`Columns`, the loops of `Summary`, `Tables.FindFirstWithKeyword`, `Scorecard.GroupByDimension`/`AverageByDimension`, `HealthOutcomes.FindHeader`/`ExtractHealthData`). Code that mutates component state becomes a class (`Landing.AccessGate`, `Chatbot.ChatSession`).
- Some inputs come from the outside world and become parameters: the body `JSON.parse` produces, the text `String(number)` gives for a number (`showNumber`), `Math.random()` (`draw`) and `Date.now()` (`now`).

Behaviours of the code worth noting:

- The overall index is the mean of all six dimension averages. A dimension with no scores counts as 0; it is not excluded. So one dimension averaging 5.0 with the other five empty gives an index of 5/6, not 5.0 (src/App.tsx:620, 678-682; `Summary.SummaryAverages`).
- A dimension's average uses only its question-mapped observations whenever there are any. The scores routed to it by header keywords or legacy ranges are used only when there are none; the two are never combined (src/App.tsx:662; `Summary.CurrentFromQuestions`).
- Two of the assistant's replies can never be given. Intent detection tries its rules in order, and the first rule, 'overall', matches any text containing "kpi", which every phrase of the later 'kpi' rule contains, so 'kpi' is never detected; no rule yields 'reassurance' at all (src/components/FloatingChatbot.tsx:551-567; `ChatText.DetectIntentNeverKpi`, `ChatText.DetectIntentNeverReassurance`). Their reply branches in `getBotResponse` are dead code.

## Model

| member | source | states |
|---|---|---|
| Columns.ExcelColumnToIndex | src/App.tsx:160-168 | the loop leaves the number the letters spell in bijective base 26 ('A' = 1 … 'Z' = 26), minus one |
| Columns.IndexToExcelColumn | src/App.tsx:175-186 | the loop leaves the letters of `index + 1`; a negative index gives the empty string |
| Columns.LettersAreUpper | src/App.tsx:176-186 | every character produced is a capital letter 'A'-'Z' |
| Columns.ColumnNumber | src/App.tsx:160-168 | no contract; the value `excelColumnToIndex` adds one to, specified by NumberOfLetters, IndexRoundTrip and LettersOfNumber |
| Columns.LettersOf | src/App.tsx:175-186 | no contract; the letters `indexToExcelColumn` builds for `index + 1`, specified by LettersAreUpper, NumberOfLetters and LettersOfOne/Two/Long |
| Columns.NumberOfLetters | src/App.tsx:160-186 | reading back the letters of a column number gives that number |
| Columns.IndexRoundTrip | src/App.tsx:160-186 | `excelColumnToIndex(indexToExcelColumn(i)) == i` for every index i >= 0 |
| Columns.LettersOfNumber | src/App.tsx:160-186 | for non-empty capital letters the other round trip holds: the number is at least 1 and spelling it gives the letters back |
| Columns.LettersOfOne | src/App.tsx:175-186 | indices 0-25 are the single letters 'A'-'Z' |
| Columns.LettersOfTwo | src/App.tsx:175-186 | indices 26-701 are two letters, first and second digit in base 26 |
| Columns.LettersOfLong | src/App.tsx:175-186 | from index 702 on the name has at least three letters |
| Sheet.Unwrap | src/App.tsx:389-396 | the cut fails with the "invalid response format" error exactly when the body has no '{' or no '}'; every character kept comes from the body |
| Sheet.UnwrapRoundTrip | src/App.tsx:389-396 | a JSON object wrapped in text with no '{' before it and no '}' after it is recovered exactly |
| Sheet.Headers | src/App.tsx:406 | one header per column, in order: the label when it is non-empty, otherwise the id |
| Sheet.ZipRow | src/App.tsx:408-414 | a row object's keys are the headers in first-appearance order, each once |
| Sheet.DistinctSameElements | src/App.tsx:408-414 | a name is a key of a row object exactly when it is one of the headers |
| Sheet.ZipRowAbsent | src/App.tsx:408-414 | a name that is no header is absent from every row object |
| Sheet.ZipRowLast | src/App.tsx:408-414 | a header reads the cell at its last position: a repeated header is overwritten by the later column, and a missing or null cell reads `null` |
| Sheet.Normalize | src/App.tsx:402-414 | the "invalid JSON structure" error exactly when table, cols or rows is missing; otherwise one header per column and one row object per sheet row, keyed by the distinct headers |
| Sheet.ParseSheet | src/App.tsx:389-414 | a body without braces fails with the format error; a successful parse went through a successful cut and a successful `JSON.parse` |
| Sheet.NumericPrefix | src/App.tsx:567 | `split(/[^0-9.]+/)[0]` is the longest prefix made only of digits and dots |
| Sheet.ParseDecimal | src/App.tsx:567 | `parseFloat` of a digits-and-dots text is never negative and gives no number when the text starts with neither a digit nor a dot; otherwise its value is that of the digits up to the second dot (`DecimalValue`) |
| Sheet.DigitsValueBelow | src/App.tsx:567 | k decimal digits spell a number below 10^k, so a fraction part is below 1 |
| Sheet.ParseDecimalValue | src/App.tsx:567 | "ws.ds" followed by anything that is not a digit or a dot parses to whole part ws plus fraction ds / 10^|ds| ("4.5" gives 4.5), which lies between ws and ws + 1 |
| Sheet.ParseScore | src/App.tsx:566-568 | a number cell scores itself; `null` never scores; a text that does not start with a digit or a dot never scores; a text score is never negative |
| Sheet.ParseScoreOfLeadingNumber | src/App.tsx:566-568 | a whole number followed by text that starts with neither digit nor dot ("5 - agree") scores exactly that number |
| Sheet.ParseScoreOfDecimal | src/App.tsx:566-568 | a text cell "ws.ds" followed by text that starts with neither digit nor dot ("4.5 - agree") scores exactly ws.ds |
| Tables.DimensionOrder | src/App.tsx:24-31 | the six dimensions in declaration order: each has its own rank, label and value key, and distinct dimensions differ in all three |
| Tables.ColumnsAtoW | src/App.tsx:119-158 | the single-letter columns A-W hold no question |
| Tables.ColumnsXtoZ | src/App.tsx:119-158 | columns X, Y, Z are questions 1-3, each with a question id that has a dimension |
| Tables.ColumnsAAtoAI | src/App.tsx:119-158 | columns AA-AI are questions 4-12, each with a question id that has a dimension |
| Tables.ColumnsAJtoAR | src/App.tsx:119-158 | columns AJ-AR are questions 13-21, each with a question id that has a dimension |
| Tables.ColumnsAStoAZ | src/App.tsx:119-158 | columns AS-AZ are questions 22-29, each with a question id that has a dimension |
| Tables.ColumnsBAtoBI | src/App.tsx:119-158 | columns BA-BI are questions 30-38, each with a question id that has a dimension |
| Tables.ColumnsBJtoBZ | src/App.tsx:119-158 | columns BJ-BZ hold no question |
| Tables.QuestionOfColumn | src/App.tsx:171-173 | no contract; `getQuestionInfo`, specified by the ColumnsAtoW … ColumnsBJtoBZ rows |
| Tables.QuestionInfoAt | src/App.tsx:189-193 | no contract; `getQuestionInfoByIndex`, specified by QuestionsInColumnsAtoZ … QuestionInfoAtRange |
| Tables.DimensionOfQuestion | src/App.tsx:245-247 | no contract; `getDimensionFromQuestionId`, a lookup in the question → dimension table, which ColumnsXtoZ … ColumnsBAtoBI show holds every question id of the column table |
| Tables.DimensionOfColumnIndex | src/App.tsx:251-259 | no contract; `getDimensionFromExcelColumnIndex`, specified by QuestionInfoAtRange |
| Tables.QuestionsInColumnsAtoZ | src/App.tsx:171-193 | among indices 0-25 exactly 23-25 hold a question, numbered index - 22 |
| Tables.QuestionsInColumnsAAtoAZ | src/App.tsx:171-193 | every index 26-51 holds question index - 22 |
| Tables.QuestionsInColumnsBAtoBZ | src/App.tsx:171-193 | among indices 52-77 exactly those up to 60 hold a question, numbered index - 22 |
| Tables.NoQuestionsFromColumnCA | src/App.tsx:171-193 | no index from 78 (column CA) on holds a question |
| Tables.QuestionInfoAtRange | src/App.tsx:171-259 | a column index holds a question exactly when it lies in 23-60 (X to BI); the question is numbered index - 22, its id has a dimension, and so the index maps to a dimension exactly in 23-60 |
| Tables.FirstWithKeyword | src/App.tsx:522-525 | no dimension when no listed dimension has a keyword in the header; otherwise the first listed dimension that has one |
| Tables.DimensionForHeader | src/App.tsx:506-526 | the lower-cased header holds a keyword of the dimension found; none found means it holds no keyword of any dimension |
| Tables.DimensionForHeaderFirst | src/App.tsx:509-525 | no dimension declared before the one found has a keyword in the header |
| Tables.SomeKeyword | src/App.tsx:523 | `list.some(k => h.includes(k))`: true exactly when some keyword occurs in the header |
| Tables.FindFirstWithKeyword | src/App.tsx:522-525 | the loop over the keyword lists finds what FirstWithKeyword specifies |
| Tables.FindDimensionForHeader | src/App.tsx:506-526 | the header matching finds what DimensionForHeader specifies |
| Tables.DimensionForColumn | src/App.tsx:495-503 | the legacy column ranges give a dimension exactly for indices 16-125 |
| Tables.LegacyRangesOrdered | src/App.tsx:495-503 | the legacy ranges follow the dimension order: a later column never maps to an earlier dimension |
| Tables.RouteColumn | src/App.tsx:570-583 | a column in 23-60 goes by the question map; otherwise by the header keywords; otherwise by the legacy ranges; it is routed nowhere exactly when its header has no keyword and the index lies outside 16-125 |
| Pdk.StandardName | src/App.tsx:69-74 | a sheet name the alias map does not know stands for itself |
| Pdk.StandardNamesListed | src/App.tsx:35-58 | every standard name in the alias map is one of the listed centres |
| Pdk.IsPdkQuestionHeader | src/App.tsx:461-464 | no contract; the first `find` test, specified by PdkColumnHeader |
| Pdk.MentionsPdk | src/App.tsx:475 | no contract; the last-resort `find` test, specified by PdkColumnHeader |
| Pdk.FirstHeader | src/App.tsx:460-476 | `headers.find(p) \|\| ''`: the first header satisfying the test, or the empty string when none does |
| Pdk.PdkColumnHeader | src/App.tsx:460-476 | the PDK column is the first header naming question 6a; failing that header 70 (column BS) when it is non-empty; failing both, the first header mentioning "pdk" (or empty); it is always a header or empty |
| Pdk.KeepRow | src/App.tsx:484-490 | no contract; the row test of the filter, specified by KeepRows, KeptByStandardName, AliasNameKept and AliasKept |
| Pdk.KeepRows | src/App.tsx:482-491 | each row whose trimmed centre name, or its standard name, equals the selection is kept as many times as it occurs, and no other row is |
| Pdk.KeepRowsAppend | src/App.tsx:482-491 | filtering is done row by row, so the kept rows keep their sheet order: the filter of a + b is the filter of a followed by that of b |
| Pdk.FilterByPdk | src/App.tsx:480-492 | no filtering for "all", for an unknown column or for a column missing from the first row; otherwise every matching row with its multiplicity, and no other row |
| Pdk.AliasStandard | src/App.tsx:69-74 | the alias map knows Sebuyau, Julau and Saratok, each mapped to its standard name |
| Pdk.AliasTrimmed | src/App.tsx:69-74 | the alias names carry no surrounding spaces |
| Pdk.KeptByStandardName | src/App.tsx:484-490 | a row whose trimmed non-empty centre name maps to the selection is kept |
| Pdk.AliasNameKept | src/App.tsx:484-490 | a row holding an alias name is kept under that alias's standard name |
| Pdk.AliasKept | src/App.tsx:69-74 | selecting "PDK Julau" keeps the rows that say "Julau", and likewise for every alias |
| Pdk.EscapeQuotes | src/App.tsx:90-91 | no contract; the quote doubling, specified by EscapeRoundTrip and EscapedQuotesDoubled |
| Pdk.RawName | src/App.tsx:88 | no contract; the raw sheet name, or the selected name itself; RawNameOf states the reverse alias lookup it uses |
| Pdk.EscapeRoundTrip | src/App.tsx:90-91 | doubling every single quote loses nothing: undoing it gives the name back |
| Pdk.RawNameOf | src/App.tsx:88 | the reverse alias lookup finds a sheet name that maps to the standard name, or reports that no alias maps to it |
| Pdk.EncodeUriComponent | src/App.tsx:95 | the encoded query holds only unreserved characters, '%' and upper-case hex digits; a text of unreserved characters is left as it is |
| Pdk.DecodeUriComponent | src/App.tsx:95 | no contract; `decodeURIComponent`, the partner of EncodeUriComponent, specified by UriRoundTrip |
| Pdk.UriRoundTrip | src/App.tsx:95 | `decodeURIComponent(encodeURIComponent(s))` gives s back for every text s: the percent-encoded UTF-8 loses nothing |
| Pdk.PercentDecodeEncoded | src/App.tsx:95 | percent-decoding the encoded text gives exactly the UTF-8 bytes of the original text |
| Pdk.Utf8RoundTrip | src/App.tsx:95 | decoding the UTF-8 bytes of a text (one to four bytes per character) gives the text back |
| Pdk.HexRoundTrip | src/App.tsx:95 | each hex digit written for a value 0-15 reads back as that value |
| Pdk.PercentBytes | src/App.tsx:95 | byte k becomes the three characters at 3k: '%', the upper-case hex digit of its high half and that of its low half |
| Pdk.Utf8 | src/App.tsx:95 | a character is one to four bytes |
| Pdk.BuildSheetUrl | src/App.tsx:82-99 | the base URL when the filter or column is empty or the filter is "all"; otherwise the base URL, "&tq=" and a parameter that decodes to the PDK query |
| Pdk.PdkQuery | src/App.tsx:86-93 | the query selects rows whose column equals one of two well-formed quoted literals: the first reads back as the centre's raw sheet name (its alias key, or the name itself when no alias maps to it), the second as the selected name |
| Pdk.EscapedQuotesDoubled | src/App.tsx:89-90 | doubling the single quotes leaves no quote that could end the literal early |
| Aggregate.CellScore | src/App.tsx:566-568 | no contract; a missing cell has no score, any other cell the score Sheet.ParseScore states |
| Aggregate.AddCell | src/App.tsx:584-598 | no contract; one cell of the header loop, specified by AddCellDimensions, AddCellQuestions and AddCellKnown |
| Aggregate.AddColumns | src/App.tsx:563-617 | no contract; the header loop over one row, specified by AddColumnsStep, AddColumnsKnown, AddColumnsGroups and Totals.AddColumnsScores |
| Aggregate.Bump | src/App.tsx:558 | no contract; the group count bump, specified by BumpCount, BumpKeys and BumpTotal |
| Aggregate.AddRow | src/App.tsx:554-617 | no contract; the group count and then the header loop of one row, specified by AccumulateStep and AccumulateGroupsStep |
| Aggregate.Accumulate | src/App.tsx:554-618 | no contract; the row loop of `processRawData`, specified by AccumulateStep, GroupCounts, AccumulateKnownQuestions and Totals.PassDimensionScores/PassQuestionScores |
| Aggregate.AddColumnsStep | src/App.tsx:563-617 | the header loop handles the columns in order: the pass over the first j + 1 headers is the pass over the first j and then column j, with its value, its route and its question |
| Aggregate.AccumulateStep | src/App.tsx:554-618 | the row loop handles the rows in order: the pass over the first i + 1 rows is the pass over the first i and then row i |
| Aggregate.AddCellDimensions | src/App.tsx:584-597 | a cell appends its score to the one dimension its column routes to, only when it has a score and the filter selects the dimension; no other dimension list and no group count changes |
| Aggregate.AddCellQuestions | src/App.tsx:592-598 | a routed, selected cell with a score appends it to its column's question list; every other question list is left as it was |
| Aggregate.AssignKnown | src/App.tsx:592-598 | storing a list under a question id that has a dimension keeps every key a known question |
| Aggregate.AddCellKnown | src/App.tsx:592-598 | one cell only creates question lists for ids of the column table |
| Aggregate.AddColumnsKnown | src/App.tsx:563-617 | one row only creates question lists for ids of the column table |
| Aggregate.AccumulateKnownQuestions | src/App.tsx:554-618 | every question id the pass produces has a dimension, so the 'Unknown' fallback of line 625 never fires |
| Aggregate.AddColumnsGroups | src/App.tsx:563-617 | the score columns of a row never change the group counts |
| Aggregate.AccumulateGroupsStep | src/App.tsx:554-618 | after a row the group counts are those its group step made |
| Aggregate.BumpCount | src/App.tsx:558 | counting a row adds one to its own group and leaves every other group's count alone |
| Aggregate.BumpKeys | src/App.tsx:558 | counting a row adds its group as a key when it is new, and no other key |
| Aggregate.BumpTotal | src/App.tsx:558 | counting a row adds one to the total of the counts |
| Aggregate.GroupCounts | src/App.tsx:554-559 | each group's count is the number of rows whose truthy group value is that group, and a group is present exactly when it counts at least one row |
| Aggregate.TotalCountAssign | src/App.tsx:558 | overwriting one group's count changes the total by the difference |
| Aggregate.GroupTotal | src/App.tsx:554-559 | the counts add up to the number of rows with a truthy group value, and to zero when the first row lacks the group column |
| Summary.QuestionNumberFrom | src/App.tsx:627-630 | the question number found for an id is the number of a column carrying that id, or 0 when no column carries it |
| Summary.QuestionNumberRange | src/App.tsx:627-630 | a question number is at most 38, and it is 0 exactly when no column of the table carries the id |
| Summary.KeyOrder | src/App.tsx:639-644 | the comparator's order (dimension rank, then question number) is the order of one numeric sort key |
| Summary.QuestionRows | src/App.tsx:623-638 | no contract; the question rows before sorting, specified by RowNumbered and QuestionsDataOrdered |
| Summary.QuestionsData | src/App.tsx:623-644 | no contract; `questionsData`, specified by QuestionsDataOrdered, QuestionsDataWithin and QuestionsDataKnown |
| Summary.RowNumbered | src/App.tsx:623-638 | every question row carries a number of at most 38 |
| Summary.QuestionsDataOrdered | src/App.tsx:623-644 | `questionsData` is a permutation of the question rows, one per question id, ordered by dimension and then by question number, and the sort is stable |
| Summary.FromQuestions | src/App.tsx:647-657 | no contract; `dimensionScoresFromQuestions`, specified by FromQuestionsGroups and Totals.FromQuestionsMass |
| Summary.FromQuestionsGroups | src/App.tsx:648-657 | a dimension is a key of `dimensionScoresFromQuestions` exactly when some question row carries it, and its list is the scores of its questions concatenated in row order |
| Summary.CurrentFor | src/App.tsx:661-663 | no contract; a dimension's current score, specified by CurrentFromQuestions |
| Summary.DimensionRows | src/App.tsx:659-671 | no contract; `dimensionsData`, specified by SummaryAverages and SummaryWithin |
| Summary.CurrentFromQuestions | src/App.tsx:660-671 | a dimension's current score is the mean of its question-mapped scores when it has any, otherwise the mean of the scores routed to it directly |
| Summary.Best | src/App.tsx:684-697 | no contract; the best dimension, specified by BestIsFirstLargest and SummaryBestAndLowest |
| Summary.Lowest | src/App.tsx:684-697 | no contract; the lowest dimension, specified by LowestIsLastSmallest and SummaryBestAndLowest |
| Summary.BestIsFirstLargest | src/App.tsx:684-685 | the stable descending sort puts first the earliest dimension with the largest current score |
| Summary.LowestIsLastSmallest | src/App.tsx:684-686 | the stable descending sort puts last the latest dimension with the smallest current score |
| Summary.Summarise | src/App.tsx:620-699 | no contract; the averages and summary after the row loop, specified by SummaryBestAndLowest, SummaryTrend, SummaryAverages and SummaryWithin, and the loops equal it by SummariseScores |
| Summary.SummaryBestAndLowest | src/App.tsx:684-697 | the best dimension is the first with the largest score and the lowest the last with the smallest score, with their scores |
| Summary.SummaryTrend | src/App.tsx:695 | the trend is positive, zero or negative exactly when the overall index rose, stayed or fell against the previous one |
| Summary.SummaryAverages | src/App.tsx:620-682 | six dimension rows in declaration order, each with previous = current - 0.1 and current the mean its scores call for; the overall index is the mean of the six current scores |
| SeqUtil.Mean | src/App.tsx:620 | no contract; `calculateAverage`, specified by Summary.MeanWithin and Totals.MeanPermutation |
| Summary.MeanWithin | src/App.tsx:620 | the average of scores within a range that holds 0 stays within it, and the empty average is 0 |
| Summary.AccumulateWithin | src/App.tsx:554-618 | when every score in the sheet lies in a range, so does every score the pass collects |
| Summary.SummaryWithin | src/App.tsx:620-686 | when every collected score lies in a range holding 0, so do the overall index, every dimension score and the best and lowest scores |
| Summary.QuestionsDataWithin | src/App.tsx:623-638 | every question's average lies within the range of its scores |
| Summary.DashboardOf | src/App.tsx:528-539 | no rows give the all-zero result with 'N/A' dimensions; otherwise the respondent total is the number of rows |
| Summary.DashboardGroups | src/App.tsx:554-559 | the returned group counts count the rows under each truthy group value and add up to the number of such rows |
| Summary.DashboardQuestions | src/App.tsx:623-644 | every returned question row has a dimension, and the rows are ordered by dimension and then by question number |
| Summary.QuestionsDataKnown | src/App.tsx:623-625 | question ids from the column table never fall back to 'Unknown' |
| Summary.DashboardWithin | src/App.tsx:528-699 | for a sheet whose scores all lie in a range holding 0, every average the dashboard shows lies in it too |
| Summary.RouteOf | src/App.tsx:570-583 | the route of a column is what RouteColumn specifies, with the column's question info |
| Summary.PushScore | src/App.tsx:585-598 | pushing one cell's score changes the dimension and question lists as AddCell specifies |
| Summary.CountGroup | src/App.tsx:556-559 | counting a row's group is the bump of its group key |
| Summary.ScoreRow | src/App.tsx:563-617 | the header loop over one row changes the lists as AddColumns specifies |
| Summary.GroupByDimension | src/App.tsx:648-657 | the loop over `questionsData` builds what FromQuestions specifies |
| Summary.SummariseScores | src/App.tsx:620-699 | the averages, sort and summary after the row loop are what Summarise specifies |
| Totals.TableScoresIncluded | src/App.tsx:584-598 | what a row pushes to a dimension from the question columns 23-60 is part of what it pushes to it from all columns |
| Totals.AddColumnsScores | src/App.tsx:563-617 | the header loop of one row appends to a dimension's list exactly the scores its columns push to it, in column order |
| Totals.PassDimensionScores | src/App.tsx:554-618 | after the row loop, each dimension's list is every score pushed to it, in row order and then column order |
| Totals.QuestionMassPush | src/App.tsx:591-598 | pushing a score to a question list adds it to the lists of that question's dimension and to no other dimension's |
| Totals.AddColumnsQuestionMass | src/App.tsx:563-617 | one row adds to the lists of a dimension's questions exactly the scores it pushes to that dimension from columns 23-60 |
| Totals.PassQuestionScores | src/App.tsx:554-618 | after the row loop, the lists of a dimension's questions hold together, as a multiset, exactly the scores pushed to that dimension from columns 23-60 |
| Totals.PassQuestionLists | src/App.tsx:554-618 | each question id has one list and no list is empty, since a list is made by its first push |
| Totals.ScoresOfQuestionsPermutation | src/App.tsx:647-657 | gathering a dimension's question lists does not depend on the order of the question rows |
| Totals.FromQuestionsMass | src/App.tsx:647-657 | a dimension gets a question-based list exactly when its questions hold a score, and that list is, as a multiset, its questions' lists |
| Totals.PassCurrent | src/App.tsx:554-671 | a dimension's question-based list exists exactly when columns 23-60 pushed it a score and then holds those scores; its own list holds every score pushed to it |
| Totals.RowsScoresPermutation | src/App.tsx:554-618 | what the rows push to a dimension is, as a multiset, independent of the order of the rows |
| Totals.MeanPermutation | src/App.tsx:620 | `calculateAverage` does not depend on the order of the scores |
| Totals.CurrentRowOrder | src/App.tsx:554-671 | a dimension's average does not depend on the order of the data rows |
| Totals.DashboardRowOrder | src/App.tsx:528-699 | reordering the data rows leaves the dimension rows, the overall index, the trend, the best and lowest dimensions and the respondent count unchanged |
| Summary.ProcessRawData | src/App.tsx:528-699 | `processRawData` returns what DashboardOf specifies |
| Insights.RiskLevel | src/components/AIInsightsPanel.tsx:13-18 | low risk exactly from an index of 6 up; critical risk exactly below 4 |
| Insights.TrendInsight | src/components/AIInsightsPanel.tsx:20-24 | improving exactly above +0.2; declining exactly at or below -0.2 |
| Insights.TrendIconOf | src/components/AIInsightsPanel.tsx:40-44 | the rising icon exactly above +0.2; the falling icon exactly below -0.2 |
| Insights.RiskIconOf | src/components/AIInsightsPanel.tsx:46-50 | the green check exactly from 6 up; the red alert exactly below 5 |
| Insights.InsightsPanel | src/components/AIInsightsPanel.tsx:26-36 | no panel exactly when the index is 0 or there are no respondents; otherwise the strength and focus shown are the best and lowest dimensions passed in |
| Insights.RiskMonotone | src/components/AIInsightsPanel.tsx:13-18 | a higher index never has a more severe risk level |
| Insights.TrendMonotone | src/components/AIInsightsPanel.tsx:20-24 | a larger trend is never read as less improving or more declining |
| Insights.TrendIconMismatch | src/components/AIInsightsPanel.tsx:20-44 | the icon disagrees with the sentence at exactly one trend, -0.2: the sentence says declining while the icon is neutral |
| Insights.RiskIconCoarsens | src/components/AIInsightsPanel.tsx:13-50 | the risk icon merges the high and critical levels into the red alert and otherwise matches the risk level |
| Insights.NarrativeRisk | src/App.tsx:722-726 | no contract; the narrative's index band, specified by NarrativeMatchesPanel and Narrative |
| Insights.NarrativeTrend | src/App.tsx:728-735 | the stable sentence is chosen only for trends in (-0.2, 0.2] |
| Insights.Narrative | src/App.tsx:719-747 | three to five lines: the index line with its band, the trend line, the strongest and weakest lines exactly when those dimensions have a name, and the respondents line last |
| Insights.NarrativeMatchesPanel | src/App.tsx:722-735 | the narrative's index bands and trend bands are the panel's |
| Insights.NarrativeOfNoData | src/App.tsx:528-539 | the narrative of an empty sheet reads index 0 with critical band, a stable trend, 'N/A' as both dimensions and 0 respondents |
| Insights.GroupLabel | src/App.tsx:61-64 | 'Staff / Staf' is shown as 'Staff'; every other group as itself |
| Insights.RespondentGroupsData | src/App.tsx:762-765 | one slice per group, in order, with the group's display label and its count |
| Insights.SlicesKeepCounts | src/App.tsx:762-765 | the slices' counts add up to the total of the group counts |
| Landing.Judge | src/components/LandingPage.tsx:57-85 | blank exactly for the empty code, admin exactly for the admin code, a centre only for a code the table maps to a non-empty name, and refused exactly for every other code |
| Landing.AccessGate.constructor | src/components/LandingPage.tsx:44-46 | empty code and error, not submitting, nothing stored, scheduled or granted |
| Landing.AccessGate.HandleInputChange | src/components/LandingPage.tsx:99-105 | the typed value becomes the code and the error is cleared; nothing else changes |
| Landing.AccessGate.HandleSubmit | src/components/LandingPage.tsx:49-97 | the trimmed, upper-cased code decides: an empty or unknown code sets its message and stops submitting; the admin code stores the admin flags and schedules the grant of all centres; a centre code stores the centre, the flag and the code and schedules the grant of that centre |
| Landing.AccessGate.Submit | src/components/LandingPage.tsx:57-96 | the same decision for an already normalised code |
| Landing.AccessGate.TimerFires | src/components/LandingPage.tsx:71-74 | the oldest scheduled grant is delivered and submitting ends; with nothing scheduled nothing changes |
| Landing.Normalize | src/components/LandingPage.tsx:55 | no contract; `accessCode.trim().toUpperCase()`, specified by NormalizeIgnoresCaseAndSpace, NormalizeOfNormal and UpperOfLower |
| Landing.NormalizeIgnoresCaseAndSpace | src/components/LandingPage.tsx:55 | surrounding white space and lower case do not change the normalised code |
| Landing.NormalizeOfNormal | src/components/LandingPage.tsx:55 | a code without surrounding space or lower-case letters normalises to itself |
| Landing.UpperOfLower | src/components/LandingPage.tsx:55 | lower-casing before upper-casing changes nothing |
| Landing.AdminCodeGrantsAll | src/components/LandingPage.tsx:65-76 | the admin code is recognised as the admin code |
| Landing.CodeKeysDistinct | src/components/LandingPage.tsx:17-41 | the 23 access codes are pairwise distinct |
| Landing.JudgeTableEntry | src/components/LandingPage.tsx:79-85 | in a table with distinct codes each entry's code grants its own centre |
| Landing.TableCodeGrants | src/components/LandingPage.tsx:17-41 | every access code of the table grants its centre |
| Landing.PaddedLowerCaseCodeGrants | src/components/LandingPage.tsx:55-90 | " jul-pdk-01 " grants PDK Julau |
| Landing.CodesInjective | src/components/LandingPage.tsx:17-41 | no two codes grant the same centre |
| Landing.CodeNamesListed | src/components/LandingPage.tsx:15-16 | every centre a code grants is in the dashboard's centre list |
| Landing.ListedNamesHaveCodes | src/App.tsx:35-58 | every listed centre has an access code |
| ChatText.MatchesAt | src/components/FloatingChatbot.tsx:555-565 | a text containing any one of a rule's phrases matches the rule |
| ChatText.MatchesWitness | src/components/FloatingChatbot.tsx:555-565 | a text matches a rule only through some phrase of the rule it contains |
| ChatText.Detect | src/components/FloatingChatbot.tsx:551-567 | the intent found is 'default' or the intent of some rule, and a text matching the first rule gets that rule's intent |
| ChatText.DetectIntent | src/components/FloatingChatbot.tsx:551-567 | no contract; `detectIntent` on the lower-cased text, specified by Detect, DetectFirst, DetectUnlabelled, DetectIntentNeverKpi and DetectIntentNeverReassurance |
| ChatText.DetectFirst | src/components/FloatingChatbot.tsx:551-567 | the rules are tried in priority order: the intent is that of the first rule the text matches, and 'default' when it matches none |
| ChatText.KpiPatternsMentionKpi | src/components/FloatingChatbot.tsx:555-563 | every phrase of the 'kpi' rule contains "kpi", which the earlier 'overall' rule already catches |
| ChatText.DetectUnlabelled | src/components/FloatingChatbot.tsx:551-567 | an intent no rule produces is never detected |
| ChatText.DetectIntentNeverReassurance | src/components/FloatingChatbot.tsx:551-567 | no message is ever classed 'reassurance', so that reply is unreachable |
| ChatText.OnlyKpiRule | src/components/FloatingChatbot.tsx:563 | the ninth rule is the only one producing 'kpi' |
| ChatText.DetectIntentNeverKpi | src/components/FloatingChatbot.tsx:555-563 | no message is ever classed 'kpi': the methodology reply is unreachable |
| ChatText.KpiQuestionIsOverall | src/components/FloatingChatbot.tsx:555-563 | the suggested question "How KPIs are calculated" is answered as 'overall' |
| ChatText.IsRoleSelection | src/components/FloatingChatbot.tsx:523-527 | no contract; `isRoleSelection`, specified by TrimmedRoleWord and PaddedRoleWord |
| ChatText.TrimmedRoleWord | src/components/FloatingChatbot.tsx:523-527 | a role word surrounded by white space trims to the word |
| ChatText.PaddedRoleWord | src/components/FloatingChatbot.tsx:523-527 | "staff" or "1" in any case, padded with white space, is a role selection |
| ChatText.ScoreToPercentage | src/components/FloatingChatbot.tsx:497-499 | a score on the 0-7 scale gives a percentage in 0-100, and 7 gives exactly 100 |
| ChatText.StatusOf | src/components/FloatingChatbot.tsx:502-508 | 'Outstanding' exactly from 93% up; 'Needs Improvement' exactly below 80% |
| ChatText.StatusMonotone | src/components/FloatingChatbot.tsx:502-508 | a higher percentage never gets a lower status |
| ChatText.StatusOnScoreScale | src/components/FloatingChatbot.tsx:497-508 | on the score scale the bands are: from 6.51 Outstanding, 6.3-6.51 Excellent, 5.95-6.3 Very Good, 5.6-5.95 Good, below 5.6 Needs Improvement |
| ChatText.DimensionNamed | src/components/FloatingChatbot.tsx:484-495 | the dimension found carries the name; none is found exactly when no dimension does |
| ChatText.SuggestionFor | src/components/FloatingChatbot.tsx:484-495 | a dimension's own suggestion for its name and the general fallback for every other name |
| ChatText.DimensionOrderLabels | src/components/FloatingChatbot.tsx:484-495 | no two dimensions share a name, so the suggestion table is well defined |
| ChatText.HashRun | src/components/FloatingChatbot.tsx:516 | the run of '#' that starts a text |
| ChatText.LinkAt | src/components/FloatingChatbot.tsx:517 | a link found is a '[' text ']' '(' target ')' with non-empty text and target |
| ChatText.UnwrapStep | src/components/FloatingChatbot.tsx:517 | one step of link unwrapping emits only characters of its input and always consumes some |
| ChatText.FirstPrefix | src/components/FloatingChatbot.tsx:518 | the first listed emoji the text starts with, or none when it starts with none of them |
| ChatText.StripHeadings | src/components/FloatingChatbot.tsx:516 | no contract; the heading removal, specified by HashRun, StripHeadingsDeletes and StripHeadingsPlain |
| ChatText.UnwrapLinks | src/components/FloatingChatbot.tsx:517 | no contract; the link unwrapping, specified by LinkAt, UnwrapStep, UnwrapLinksDeletes and UnwrapLinksPlain |
| ChatText.RemovePatterns | src/components/FloatingChatbot.tsx:512-518 | no contract; the removal of literal alternatives, specified by FirstPrefix, RemovePatternsDeletes and RemovePatternsPlain |
| ChatText.RemoveMarkdown | src/components/FloatingChatbot.tsx:511-519 | no contract; `removeMarkdown`, specified by RemoveMarkdownClean and RemoveMarkdownKeepsPlain |
| ChatText.StripHeadingsDeletes | src/components/FloatingChatbot.tsx:516 | removing headings only deletes characters |
| ChatText.UnwrapLinksDeletes | src/components/FloatingChatbot.tsx:517 | unwrapping links only deletes characters |
| ChatText.RemovePatternsDeletes | src/components/FloatingChatbot.tsx:512-518 | removing fixed patterns only deletes characters |
| ChatText.RemoveMarkdownClean | src/components/FloatingChatbot.tsx:511-519 | the cleaned text holds no '*', '_' or '`' |
| ChatText.StripHeadingsPlain | src/components/FloatingChatbot.tsx:516 | a text without '#' has no headings to remove |
| ChatText.UnwrapLinksPlain | src/components/FloatingChatbot.tsx:517 | a text without '[' has no links to unwrap |
| ChatText.RemovePatternsPlain | src/components/FloatingChatbot.tsx:512-518 | patterns that all start with a character absent from the text remove nothing |
| ChatText.RemoveMarkdownKeepsPlain | src/components/FloatingChatbot.tsx:511-519 | a text with no markdown character and no emoji lead byte comes back unchanged |
| Chatbot.NamedRows | src/components/FloatingChatbot.tsx:471-474 | one name and score per dimension row, in order |
| Chatbot.DimensionAnalysis | src/components/FloatingChatbot.tsx:468-481 | no analysis without dimension data; otherwise a descending permutation of the named rows, with highest and lowest present exactly when there is a row |
| Chatbot.FirstLargestUnique | src/App.tsx:684-685 | at most one position is the first with the largest score |
| Chatbot.LastSmallestUnique | src/App.tsx:684-686 | at most one position is the last with the smallest score |
| Chatbot.AnalysisMatchesSummary | src/components/FloatingChatbot.tsx:468-481 | the assistant's highest and lowest dimensions are the dashboard's best and lowest dimensions |
| Chatbot.Labels | src/components/FloatingChatbot.tsx:623 | the dimension labels in dashboard order |
| Chatbot.FallbackRanking | src/components/FloatingChatbot.tsx:625 | the fallback lists the best and lowest names that are non-empty, the best first |
| Chatbot.RankingAsWritten | src/components/FloatingChatbot.tsx:620-627 | as written, the "highest → lowest" list is the labels in dashboard order, unsorted |
| Chatbot.RankingAsWrittenUnsorted | src/components/FloatingChatbot.tsx:620-627 | with scores 4.0 then 6.0 the list as written puts the lower-scoring dimension first |
| Chatbot.SortedRanking | src/components/FloatingChatbot.tsx:620-627 | the corrected list has one label per dimension row, and the fallback when there are none |
| Chatbot.RankingOrdered | src/components/FloatingChatbot.tsx:620-627 | the corrected list is the labels of a descending permutation of the rows, headed by the best dimension |
| Chatbot.ImprovementTarget | src/components/FloatingChatbot.tsx:645 | the lowest dimension's name when there is one, otherwise 'Competitor Orientation'; never empty |
| Chatbot.ScoreLinesOf | src/components/FloatingChatbot.tsx:668-676 | one score line per analysed dimension, in the analysis order |
| Chatbot.ReplyFor | src/components/FloatingChatbot.tsx:595-685 | an unavailable reply only for missing KPI data or dimensions; 'charts' and the default get the default text; 'overall' gives the snapshot the first time and the concise reply afterwards; 'compare' lists the dimension labels in dashboard order, unsorted (as written), or the best and lowest names when there are no dimension rows |
| Chatbot.CompareReplyNamesEveryDimension | src/components/FloatingChatbot.tsx:620-627 | the 'compare' reply names every dimension once: its labels are, as a multiset, those of the list sorted by score |
| Chatbot.CompareReplyUnsorted | src/components/FloatingChatbot.tsx:620-627 | with Trainee Orientation at 4.0 and Performance Orientation at 6.0 the 'compare' reply lists Trainee Orientation first, while the sorted list puts it second |
| Chatbot.ContentTypeFor | src/components/FloatingChatbot.tsx:599-676 | no contract; the content type each reply records, specified by ContentRecordedWithContent and ChatSession.Answer |
| Chatbot.ContentRecordedWithContent | src/components/FloatingChatbot.tsx:595-685 | a content type is recorded exactly for the replies that carry content, not for unavailable, help, default or reassurance replies |
| Chatbot.ScoreLinesDescending | src/components/FloatingChatbot.tsx:668-677 | the score breakdown has one line per dimension, highest score first, each with its percentage |
| Chatbot.Without | src/components/FloatingChatbot.tsx:545 | the options are the perspectives other than the last one |
| Chatbot.WithoutDropsOne | src/components/FloatingChatbot.tsx:545 | filtering removes at most one perspective, and none when the last is not a perspective |
| Chatbot.WithoutKeeps | src/components/FloatingChatbot.tsx:545 | with no last perspective every perspective is an option |
| Chatbot.PerspectiveOptions | src/components/FloatingChatbot.tsx:541-545 | at least four of the five perspectives are always available |
| Chatbot.PickIndex | src/components/FloatingChatbot.tsx:546 | `Math.floor(draw * n)` for a draw in [0, 1) is a valid index |
| Chatbot.ChatSession.constructor | src/components/FloatingChatbot.tsx:533-538 | the session starts with no summary shown, no last perspective, content type or intent, and no counts |
| Chatbot.ChatSession.PickNextPerspective | src/components/FloatingChatbot.tsx:543-549 | the next perspective is a perspective other than the last one, and becomes the last one |
| Chatbot.ChatSession.GetBotResponse | src/components/FloatingChatbot.tsx:569-686 | a role word gets the role prompt and a session without a role the role request, with no state change; otherwise the intent of the trimmed lower-cased message is recorded with its time and count, a new perspective is picked, and the reply and content type are those ReplyFor and ContentTypeFor give |
| Chatbot.ChatSession.Handle | src/components/FloatingChatbot.tsx:582-595 | the intent bookkeeping and perspective rotation, then the answer |
| Chatbot.ChatSession.Answer | src/components/FloatingChatbot.tsx:595-685 | the reply is ReplyFor with the old summary flag (so 'compare' lists the dimensions unsorted, as written), the flag is set by the first answered 'overall', and the content type changes only for replies with content |
| Chatbot.ChatSession.AnswerFromKpi | src/components/FloatingChatbot.tsx:599-641 | the reply to 'overall', 'trends', 'compare', 'strengths' and 'areas' is ReplyFor with the old summary flag; the flag becomes set exactly by an 'overall' answered with KPI data; the content type becomes ContentTypeFor's when that is some, and is otherwise left as it was |
| Chatbot.Bump | src/components/FloatingChatbot.tsx:585 | no contract; the intent count bump, specified by BumpCounts |
| Chatbot.BumpCounts | src/components/FloatingChatbot.tsx:585 | counting an intent adds one to its count, leaves every other count alone and adds only that key |
| Charts.Count | src/components/CategoryBreakdown.tsx:24-26 | `data.filter(p).length` never exceeds the number of items |
| Charts.CountAppend | src/components/CategoryBreakdown.tsx:24-26 | counting over two lists adds up |
| Charts.PerformanceOf | src/components/HorizontalBar.tsx:141-145 | 'Excellent' exactly from 5.5 up, 'Good' exactly in [4.5, 5.5), 'Needs Attention' exactly below 4.5 |
| Charts.PerformanceMonotone | src/components/HorizontalBar.tsx:141-145 | a higher score never gets a worse band |
| CategoryBreakdown.Distribute | src/components/CategoryBreakdown.tsx:24-27 | each count is at most the total, and the total is the number of dimensions |
| CategoryBreakdown.CategoriesPartition | src/components/CategoryBreakdown.tsx:24-27 | the three categories count every dimension exactly once |
| CategoryBreakdown.CategoriesAreBands | src/components/CategoryBreakdown.tsx:24-26 | the three categories are the performance bands of the bar charts |
| CategoryBreakdown.Share | src/components/CategoryBreakdown.tsx:29-31 | no share for an empty chart (the division by zero is NaN); otherwise a share between 0 and 100, and 100 for the whole |
| CategoryBreakdown.SharesSumToHundred | src/components/CategoryBreakdown.tsx:24-31 | for at least one dimension the three shares add up to 100 |
| CategoryBreakdown.Datasets | src/components/CategoryBreakdown.tsx:34-58 | three datasets, one per category |
| CategoryBreakdown.TooltipCount | src/components/CategoryBreakdown.tsx:88-89 | any label other than the first two reads the needs-improvement count |
| CategoryBreakdown.TooltipMatchesBar | src/components/CategoryBreakdown.tsx:34-90 | each dataset's tooltip count is the count whose share its bar shows |
| Funnel.Shown | src/components/FunnelChart.tsx:23-24 | a slice of three takes three items, or all when there are fewer |
| Funnel.SortedData | src/components/FunnelChart.tsx:22 | sorting keeps the number of dimensions |
| Funnel.Top3 | src/components/FunnelChart.tsx:23 | the top slice has min(3, n) items |
| Funnel.Bottom3 | src/components/FunnelChart.tsx:24 | the bottom slice has min(3, n) items |
| Funnel.DisplayData | src/components/FunnelChart.tsx:27 | the funnel shows twice min(3, n) bars |
| Funnel.Bottom3At | src/components/FunnelChart.tsx:24 | the k-th bottom bar is the k-th from the end of the sorted list: the lowest comes first |
| Funnel.SortedPosition | src/components/FunnelChart.tsx:22 | every dimension appears in the sorted list |
| Funnel.SortedRank | src/components/FunnelChart.tsx:22 | in the sorted list a higher score comes earlier |
| Funnel.TopIsHighest | src/components/FunnelChart.tsx:22-23 | a dimension scoring above the i-th top bar is among the bars before it |
| Funnel.BottomIsLowest | src/components/FunnelChart.tsx:22-24 | a dimension scoring below the i-th bottom bar is among the bottom bars before it |
| Funnel.TopAboveBottom | src/components/FunnelChart.tsx:22-27 | with at least six dimensions every top bar scores at least every bottom bar and no dimension is shown twice |
| Funnel.HalvesOverlap | src/components/FunnelChart.tsx:22-27 | with one to five dimensions the two halves share a dimension, so it is shown twice |
| Funnel.FunnelEnds | src/components/FunnelChart.tsx:22-27 | the first bar is the highest score and the first bottom bar the lowest |
| HorizontalBar.ToBars | src/components/HorizontalBar.tsx:29-34 | one bar per dimension, with its name, score and the palette colour of its position |
| HorizontalBar.DimensionBars | src/components/HorizontalBar.tsx:29-35 | sorting keeps the number of bars |
| HorizontalBar.DimensionBarsOrdered | src/components/HorizontalBar.tsx:29-35 | the bars are a stable descending permutation of the coloured bars: each keeps the colour of its original position |
| HorizontalBar.SummaryCards | src/components/HorizontalBar.tsx:151 | three summary cards, or all bars when there are fewer |
| HorizontalBar.FirstCardIsBest | src/components/HorizontalBar.tsx:29-35 | the first card shows the earliest dimension with the highest score, with its own colour |
| HorizontalBar.PerformanceColor | src/components/HorizontalBar.tsx:135-139 | no contract; `getPerformanceColor`, specified by ColorMatchesLabel |
| HorizontalBar.ColorMatchesLabel | src/components/HorizontalBar.tsx:135-145 | the card's colour and its label always name the same band |
| StackedBar.OffsetsFor | src/components/StackedBarByGroup.tsx:37-43 | six offsets, each within ±0.2, and all zero for a group the table does not know |
| StackedBar.Clamp | src/components/StackedBarByGroup.tsx:45 | the clamped score lies on the 0-7 scale and a score already on it is unchanged |
| StackedBar.GroupScores | src/components/StackedBarByGroup.tsx:36-47 | one score per dimension, each on the 0-7 scale |
| StackedBar.GroupScoresNearBase | src/components/StackedBarByGroup.tsx:36-47 | each group score lies within 0.2 of the dimension's score and equals it for an unknown group or from the seventh dimension on |
| StackedBar.GroupData | src/components/StackedBarByGroup.tsx:74-77 | at most one entry per group, and at least one when there are groups |
| StackedBar.GroupDataEntries | src/components/StackedBarByGroup.tsx:74-77 | the keys are distinct, every group label is a key, and each entry holds that group's generated scores |
| StackedBar.Averages | src/components/StackedBarByGroup.tsx:81-85 | one average per entry, in entry order, with the entry's name and scores |
| StackedBar.TopGroup | src/components/StackedBarByGroup.tsx:87-89 | no contract; the `reduce` choosing the top group, specified by TopGroupIsFirstBest |
| StackedBar.TopGroupIsFirstBest | src/components/StackedBarByGroup.tsx:87-89 | the top group is the first with the highest average: a later group replaces it only with a strictly higher one |
| StackedBar.GroupChart | src/components/StackedBarByGroup.tsx:50-90 | no chart exactly when there are no dimensions or no groups |
| StackedBar.GroupChartSummary | src/components/StackedBarByGroup.tsx:73-90 | every group average is on the 0-7 scale, the group total is the number of distinct labels, every group appears once, and the top group is the first with the highest average |
| Scorecard.OfDimension | src/components/QuestionBreakdown.tsx:201-207 | the questions of one dimension, in data order |
| Scorecard.AssignTwice | src/components/QuestionBreakdown.tsx:203-206 | assigning a key twice is assigning it the second value |
| Scorecard.Grouped | src/components/QuestionBreakdown.tsx:200-207 | no contract; `dimensionGroups`, specified by GroupedContents, GroupSizesSum and OfDimension, and the loop equals it by GroupByDimension |
| Scorecard.GroupByDimension | src/components/QuestionBreakdown.tsx:201-207 | the grouping loop builds what Grouped specifies |
| Scorecard.GroupedContents | src/components/QuestionBreakdown.tsx:201-207 | each dimension's group is its questions in data order, and a dimension is a key exactly when it has a question |
| Scorecard.AssignSize | src/components/QuestionBreakdown.tsx:203-206 | replacing one group changes the total size by the difference |
| Scorecard.GroupSizesSum | src/components/QuestionBreakdown.tsx:201-207 | the groups hold every question exactly once between them |
| Scorecard.Scores | src/components/QuestionBreakdown.tsx:213 | the scores of a group's questions, in order |
| Scorecard.Averages | src/components/QuestionBreakdown.tsx:210-215 | one average per group |
| Scorecard.AveragesKeys | src/components/QuestionBreakdown.tsx:210-215 | the averages have the groups' keys in the same order |
| Scorecard.AssignNew | src/components/QuestionBreakdown.tsx:214 | assigning a new key appends it |
| Scorecard.AverageByDimension | src/components/QuestionBreakdown.tsx:210-215 | the averaging loop builds what Averages specifies |
| Scorecard.AveragesAt | src/components/QuestionBreakdown.tsx:210-215 | each dimension's average is the mean of its questions' scores |
| Scorecard.AverageWithin | src/components/QuestionBreakdown.tsx:210-215 | a non-empty group's average lies within the range of its scores |
| Scorecard.SortedDimensions | src/components/QuestionBreakdown.tsx:218-222 | the sort keeps the number of dimensions |
| Scorecard.SortedDimensionsOrdered | src/components/QuestionBreakdown.tsx:218-222 | the dimensions are a stable permutation of the groups ordered by their first question's number |
| Scorecard.FirstQuestion | src/components/QuestionBreakdown.tsx:218-222 | the sort key of a dimension is the number of its first question in data order |
| Scorecard.InfoOf | src/components/QuestionBreakdown.tsx:352 | a dimension's code has at most two characters, exactly two for a name of two or more |
| Scorecard.UnknownDimensionInfo | src/components/QuestionBreakdown.tsx:352 | an unknown dimension is shown under its own name with the upper-cased first two characters as code |
| Scorecard.DescriptionOf | src/components/QuestionBreakdown.tsx:380 | a question's own non-empty description, and "Question <id>" for an id without one |
| Scorecard.PrefixColor | src/components/QuestionBreakdown.tsx:237-255 | no contract; the colour lookup by prefix, specified by PrefixColorFirst and PrefixColorTwoChars |
| Scorecard.PrefixColorFirst | src/components/QuestionBreakdown.tsx:237-255 | the colour of the first prefix the id starts with, and the fallback when it starts with none |
| Scorecard.PrefixColorTwoChars | src/components/QuestionBreakdown.tsx:237-255 | with two-character prefixes only the id's first two characters decide its colour |
| Scorecard.RowsOf | src/components/QuestionBreakdown.tsx:370-415 | one row per question with its id and score, and the dimension average shown exactly on the last row |
| Scorecard.TitlePdk | src/components/QuestionBreakdown.tsx:334 | the title names the centre, or 'All PDKs' for 'all' |
| Scorecard.SectionOf | src/components/QuestionBreakdown.tsx:349-415 | a section shows its dimension, the mean of its questions' scores and one row per question |
| Scorecard.Sections | src/components/QuestionBreakdown.tsx:349 | one section per sorted dimension, in order |
| Scorecard.ScorecardOf | src/components/QuestionBreakdown.tsx:192-230 | no scorecard exactly when there are no questions |
| Scorecard.ScorecardCoversData | src/components/QuestionBreakdown.tsx:201-222 | every question's dimension has a section |
| Scorecard.ScorecardSection | src/components/QuestionBreakdown.tsx:201-222 | each section lists exactly its dimension's questions in data order, at least one, with their mean as average |
| Scorecard.OfDimensionHas | src/components/QuestionBreakdown.tsx:201-207 | a question's dimension has at least that question |
| HealthOutcomes.ParseFloat | src/components/HealthOutcomesChart.tsx:72 | `parseFloat` of a trimmed text: nothing for the empty text, a number not above 0 after a leading '-', and not below 0 otherwise |
| HealthOutcomes.ParseFloatValue | src/components/HealthOutcomesChart.tsx:72 | "ws.ds" followed by anything that is not a digit or a dot parses to ws plus ds / 10^|ds| |
| HealthOutcomes.ParseFloatNegative | src/components/HealthOutcomesChart.tsx:72 | the same text after a '-' parses to the negated value |
| HealthOutcomes.ParseFloatExamples | src/components/HealthOutcomesChart.tsx:72 | "4.5" parses to 4.5 and "-2.25" to -2.25 |
| HealthOutcomes.CellNumber | src/components/HealthOutcomesChart.tsx:71-72 | a number cell reads as itself and `null` reads as no number |
| HealthOutcomes.BeforeFirst | src/components/HealthOutcomesChart.tsx:80-81 | `split(sep)[0]`: the longest prefix without the separator, the whole text when it has none |
| HealthOutcomes.ReadingsOf | src/components/HealthOutcomesChart.tsx:79-87 | one reading per key of the row, in key order, holding the key and the number its value parses to |
| HealthOutcomes.LookupReadings | src/components/HealthOutcomesChart.tsx:71-72 | looking a key up among the readings gives the number of the row's value under that key |
| HealthOutcomes.ExactValue | src/components/HealthOutcomesChart.tsx:71-76 | an exact match gives a positive number read under exactly the pattern |
| HealthOutcomes.Stem | src/components/HealthOutcomesChart.tsx:80-81 | no contract; the lower-cased pattern text before the separator, trimmed, built on BeforeFirst; HeaderValueSource states that a fuzzy value comes from a key holding this stem |
| HealthOutcomes.FuzzyMatch | src/components/HealthOutcomesChart.tsx:79-87 | no contract; the fuzzy key test, specified by HeaderValueSource |
| HealthOutcomes.FuzzyValue | src/components/HealthOutcomesChart.tsx:79-87 | a fuzzy match gives a positive number |
| HealthOutcomes.Search | src/components/HealthOutcomesChart.tsx:68-90 | the value found is never negative (0 stands for "not found") |
| HealthOutcomes.HeaderValue | src/components/HealthOutcomesChart.tsx:68-90 | `findHeader` never returns a negative number |
| HealthOutcomes.FindHeader | src/components/HealthOutcomesChart.tsx:68-90 | the nested loops return what HeaderValue specifies |
| HealthOutcomes.FuzzyValueSource | src/components/HealthOutcomesChart.tsx:79-87 | a fuzzy value comes from a key that matches the pattern |
| HealthOutcomes.SearchSource | src/components/HealthOutcomesChart.tsx:68-90 | a non-zero value comes from a key equal to or fuzzily matching one of the patterns |
| HealthOutcomes.HeaderValueSource | src/components/HealthOutcomesChart.tsx:68-90 | a non-zero value is the number in a column whose key equals a pattern or contains its lower-cased stem before ':' or '/' |
| HealthOutcomes.ExactFirst | src/components/HealthOutcomesChart.tsx:69-76 | when the first pattern is itself a key with a positive number, that number is returned, before any fuzzy match |
| HealthOutcomes.RecordOf | src/components/HealthOutcomesChart.tsx:124-141 | a record exactly when both health answers are found; it holds them, its self-management answers fall back to them when missing, and it is plausible |
| HealthOutcomes.Plausible | src/components/HealthOutcomesChart.tsx:124-141 | no contract; what a kept record satisfies, specified by RecordOf and AveragesPositive |
| HealthOutcomes.Keep | src/components/HealthOutcomesChart.tsx:124-141 | never more records than rows |
| HealthOutcomes.KeptAtRecords | src/components/HealthOutcomesChart.tsx:124-141 | each kept record is the record of the row at its position |
| HealthOutcomes.KeptAtOrder | src/components/HealthOutcomesChart.tsx:124-141 | the kept positions are increasing, and a dropped row gives no record |
| HealthOutcomes.HealthData | src/components/HealthOutcomesChart.tsx:124-141 | at most one record per row, each plausible: four positive answers and a satisfaction not below 0 |
| HealthOutcomes.HealthDataOrigin | src/components/HealthOutcomesChart.tsx:124-141 | the records are those of the kept rows in row order, and every dropped row lacks a positive health-before or health-after answer |
| HealthOutcomes.ExtractHealthData | src/components/HealthOutcomesChart.tsx:124-141 | the `forEach` over the rows builds what HealthData specifies |
| HealthOutcomes.Improvements | src/components/HealthOutcomesChart.tsx:174-186 | one improvement per record |
| HealthOutcomes.Column | src/components/HealthOutcomesChart.tsx:188-192 | one answer per record |
| HealthOutcomes.Gains | src/components/HealthOutcomesChart.tsx:497 | one gain per improvement |
| HealthOutcomes.CorrelationOf | src/components/HealthOutcomesChart.tsx:198-202 | the simulated correlation lies between 0.2 and 0.95 |
| HealthOutcomes.Correlations | src/components/HealthOutcomesChart.tsx:198-207 | one correlation per dimension, with its name and score |
| HealthOutcomes.MetricsFrom | src/components/HealthOutcomesChart.tsx:174-219 | one health and one self-management improvement per record, and one correlation per dimension |
| HealthOutcomes.MetricsOf | src/components/HealthOutcomesChart.tsx:58-219 | no metrics exactly when there are no rows or no row yields a record; otherwise one improvement per record |
| HealthOutcomes.SumPositive | src/components/HealthOutcomesChart.tsx:188-192 | a non-empty sum of positive numbers is positive |
| HealthOutcomes.MeanPositive | src/components/HealthOutcomesChart.tsx:188-192 | the average of positive answers is positive |
| HealthOutcomes.SumNonNegative | src/components/HealthOutcomesChart.tsx:192 | a sum of numbers not below 0 is not below 0 |
| HealthOutcomes.AveragesPositive | src/components/HealthOutcomesChart.tsx:188-192 | the four before/after averages are positive and the satisfaction average is not negative |
| HealthOutcomes.Improved | src/components/HealthOutcomesChart.tsx:194 | no contract; `d.healthAfter > d.healthBefore`, the test whose count ImprovementRate bounds, with both extremes stated in terms of the test |
| HealthOutcomes.CountAll | src/components/HealthOutcomesChart.tsx:194 | a filter keeps every item exactly when all satisfy the test |
| HealthOutcomes.CountNone | src/components/HealthOutcomesChart.tsx:194 | a filter keeps nothing exactly when no item satisfies the test |
| HealthOutcomes.ImprovementRate | src/components/HealthOutcomesChart.tsx:194-195 | the rate lies between 0 and 100; it is 100 exactly when every trainee improved and 0 exactly when none did |
| HealthOutcomes.Percentage | src/components/HealthOutcomesChart.tsx:195 | a share of a positive total lies between 0 and 100, with 100 exactly for the whole and 0 exactly for none |
| HealthOutcomes.SumOfGains | src/components/HealthOutcomesChart.tsx:174-179 | the improvements add up to the sum of the after answers minus the sum of the before answers |
| HealthOutcomes.AverageImprovement | src/components/HealthOutcomesChart.tsx:497 | no contract; the average improvement on the KPI card, specified by AverageImprovementIsDifference |
| HealthOutcomes.AverageImprovementIsDifference | src/components/HealthOutcomesChart.tsx:497 | the average improvement is the average after minus the average before, for health and for self-management |
| HealthOutcomes.HighImprovement | src/components/HealthOutcomesChart.tsx:258 | no contract; the first bucket test (`improvement > 2.0`); Distribution counts with it and BucketsPartition shows the four tests split the trainees |
| HealthOutcomes.Distribution | src/components/HealthOutcomesChart.tsx:254-263 | four bars, each at most the number of trainees |
| HealthOutcomes.BucketsPartition | src/components/HealthOutcomesChart.tsx:254-263 | the four buckets (above 2, 1 to 2, between 0 and 1, at most 0) count every trainee exactly once |
| HealthOutcomes.CorrelationOnScoreScale | src/components/HealthOutcomesChart.tsx:200-201 | the correlation is 0.2 for scores at most 0, 0.95 from 6.5625 up and linear in between |
| HealthOutcomes.CorrelationMonotone | src/components/HealthOutcomesChart.tsx:200-201 | a higher dimension score never gets a lower correlation |
| HealthOutcomes.ImpactOf | src/components/HealthOutcomesChart.tsx:456 | no contract; the impact label, specified by ImpactOnScoreScale |
| HealthOutcomes.BandOf | src/components/HealthOutcomesChart.tsx:311-323 | no contract; the bar colour band, specified by ImpactOnScoreScale |
| HealthOutcomes.ImpactOnScoreScale | src/components/HealthOutcomesChart.tsx:455-456 | 'Strong Impact' exactly from a score of 4.375, 'Moderate Impact' exactly in [2.625, 4.375), the red bar exactly below 0.875, and the green and blue bars exactly the strong and moderate ones |

## Left out

- The network fetch, the 10-second polling, `useEffect`/`useState` wiring and console logging (src/App.tsx:372-430, 754-759): these are I/O and asynchrony. A fetched body enters the model as text (`Sheet.ParseSheet`), and a React state update counts as immediate.
- `Sheet.ParseSheet`: `JSON.parse` is a parameter that either fails or yields the response object; JSON syntax is not modelled.
- `parseGoogleSheetDate` (src/App.tsx:262-278): it is never called, and it depends on `Date`.
- `Insights.Narrative`: the narrative keeps which sentence is chosen and the numbers it carries, not the wording or `toFixed` formatting (src/App.tsx:719-749).
- `Chatbot.ReplyFor`: a reply is a datatype of reply kinds with their data (names, scores, percentages, status). The template wording and `toFixed` are not modelled, and `removeMarkdown` is modelled on its own (`ChatText`) rather than applied to these structured replies.
- `Chatbot.ChatSession.PickNextPerspective`: `Math.random()` is the parameter `draw` in [0, 1). The contract states that the perspective changes, not which perspective is drawn.
- `Chatbot.ChatSession.GetBotResponse`: `Date.now()` is the parameter `now`. The role is fixed when the session is created. `kpiData.bestDimension` is always an object in the source, so its falsy checks never fire, and the model has no such branch.
- Speech synthesis, the ElevenLabs call, video and avatar timers, and the random typing delay of `handleSendMessage` (src/components/FloatingChatbot.tsx:128-465, 688-763): these are media, timers and randomness.
- `Landing.AccessGate.HandleSubmit`: `sessionStorage` is a map field; the 300 ms `setTimeout` is a queue of pending grants (`scheduled`), delivered by `TimerFires` into `granted`, which stands for the `onAccessGranted` callback. Timer cancellation on unmount is not modelled.
- `Text.Lower` and `Text.Upper`: case mapping covers ASCII letters only. Characters whose Unicode case mapping changes length or leaves ASCII (such as the Kelvin sign) are not modelled.
- `Dict`: JavaScript orders integer-like keys ("1", "42") before other keys and treats prototype names such as `__proto__` specially. The model keeps plain insertion order for every key.
- `HealthOutcomes.ParseFloat`: `parseFloat` is modelled as an optional '+' or '-' sign followed by digits and dots. A hexadecimal text such as "0x10" reads as its leading "0", as `parseFloat` reads it. Exponents, `Infinity` and the leading white space `parseFloat` skips are not modelled.
- `HealthOutcomes.CellNumber`: for a number cell the model takes `parseFloat(String(x)) == x`, which holds for finite numbers.
- `HealthOutcomes.ExactValue`: the `!== null && !== undefined` test is not modelled separately, because a `null` cell reads as no number either way. `for…in` is modelled as iterating the row's entries in key order.
- The scatter-chart lookup of satisfaction by raw row position (src/components/HealthOutcomesChart.tsx:334-372): it only arranges chart points.
- The header probing of `HealthOutcomesChart` when no row qualifies (src/components/HealthOutcomesChart.tsx:144-170) only logs. The model keeps its result, `null`.
- `Pdk.FilterByPdk` and `Aggregate`: `String(cell)` of a number is the parameter `showNumber`.
- `Pdk.EncodeUriComponent`: characters are Unicode scalar values, so the `URIError` that `encodeURIComponent` throws for a lone surrogate cannot arise in the model.
- `Totals.DashboardRowOrder`: sums are exact, so their order never matters. With IEEE-754 doubles, reordering rows can change the last bits of an average.
- `Scorecard.ScorecardOf`: the card keeps only the centre part of the heading (`titlePdk`, from `TitlePdk`). The fixed "RehabServE Scorecard" prefix, the respondent count after `_n=` and the date read from the clock (src/components/QuestionBreakdown.tsx:334) are presentation and I/O and are not modelled.
- `Scorecard.DescriptionOf`: the question-description table is a parameter; its 38 literal texts are not copied into the model.
- Chart.js datasets, colours other than the band colours, options and tooltips (except the counts and bands modelled above), the StackedBar tooltip footer and palette index, the funnel colours, the HorizontalBar dataset label and tooltip text: these are presentation only.
- `downloadPDF` and `src/utils/exportUtils.ts`: DOM manipulation and PDF generation.
- `src/components/ContactUs.tsx`, the donut, gauge and KPI-card components and the pure-markup components: network calls, SVG geometry, animation and layout.
- The duplicate `logoError` declaration (src/components/QuestionBreakdown.tsx:88-89) keeps that file from compiling as shown. It does not affect the scorecard logic modelled here.

## Findings

| source | as written | input that shows it | evidently intended | confidence | as-written member | corrected member |
|---|---|---|---|---|---|---|
| src/components/FloatingChatbot.tsx:620-627 | the 'compare' reply is headed "Dimension ranking (highest → lowest)" but lists the dimension labels in dashboard order, unsorted | dimensions Trainee Orientation at 4.0 and Performance Orientation at 6.0: the list puts Trainee Orientation first | the labels sorted by score, highest first, as `getDimensionAnalysis` sorts them for the score breakdown | not executed | Chatbot.RankingAsWritten, Chatbot.RankingAsWrittenUnsorted, Chatbot.CompareReplyUnsorted | Chatbot.SortedRanking, Chatbot.RankingOrdered |
