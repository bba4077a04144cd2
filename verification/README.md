# pandas-practice question generators, modelled in Dafny

This project models the three generator scripts of the pandas-practice site:

- `generate_questions_v2.py` profiles each dataset column, matches templates against the profile, binds literals, and builds questions. Each question carries a data preview, column descriptions, an id and an explanation.
- `generate_question_bank.py` enumerates every (column, template[, other column]) combination. It renders the question and the pandas snippet, and records whether `eval` of the snippet succeeded.
- `review_questions.py` judges each raw question against its dataset. It turns the good ones into final questions with concepts, hints and previews, and counts the accepted questions per dataset.

Everything is a pure function over immutable datatypes:

- a table is a sequence of named columns of cells;
- a column profile keeps the set of capability flags that are true, so a missing dictionary key reads as `False`, as `analysis.get(flag, False)` does;
- a string template is a sequence of literal pieces and named holes.

Ratios such as `unique_count / total_rows > 0.9` are stated exactly by integer cross-multiplication (`10 * u > 9 * n`). The things the scripts cannot predict become parameters:

- `eval` of a snippet is a caller-supplied `run(dataset, code)` that returns an `Outcome` (an exception, or a DataFrame, Series or other value with its printed form);
- `pd.read_csv` is a caller-supplied `read(name)`, or a `SourceFile`/`BankFile` value that says whether the file exists and loaded;
- `random.choice` and `random.sample` are a caller-supplied `pick`, reduced modulo the number of candidates, so every random outcome is one `pick`;
- the pandas facts the generator reads but does not compute itself form `ColumnStats`:
  - the values with count above 1, from `value_counts`;
  - the rounded median, as it prints.

The generation functions take the template catalog as a parameter `ts`, together with the condition the code relies on (every template can be formatted with the arguments the generator passes). `SynthesisV2.GenerationPool` and `QuestionBank.BankMain` supply each script's own catalog, and the catalog modules prove that it meets the condition.

A column with no rows makes both analyses divide by zero. The model returns `None` for that case rather than excluding it.

Modules:

| file | module | models |
|---|---|---|
| wrappers.dfy | Wrappers | `Option` |
| text.dfy | Text | `in` on strings, `lower()`, `replace`, `rstrip`, `join`, slicing, `dict.fromkeys` de-duplication |
| numerals.dfy | Numerals | decimal rendering, `:03d` padding and reading a number back |
| tables.dfy | Tables | cells, columns, `dropna`, `nunique`, `isnull().sum()`, `head(n)` on chosen columns |
| capabilities.dfy | Capabilities | the profile record, `requires` keys, ratio thresholds, sample prefix |
| templates.dfy | Templates | template records, `str.format` over named holes |
| catalog_v2.dfy | CatalogV2 | the sixteen templates of `generate_questions_v2.py` |
| questions_v2.dfy | QuestionsV2 | `analyze_column`, `create_column_description`, entity nouns and explanations of `generate_questions_v2.py` |
| synthesis_v2.dfy | SynthesisV2 | `generate_questions_for_dataset`, `add_explanations` and `main` of `generate_questions_v2.py` |
| catalog_bank.dfy | CatalogBank | the fourteen templates of `generate_question_bank.py` |
| question_bank.dfy | QuestionBank | the rest of `generate_question_bank.py` |
| execution.dfy | Execution | what `eval` returns |
| review.dfy | Review | `review_questions.py` |

## Model

| member | source | states |
|---|---|---|
| QuestionsV2.AnalyzeColumn | generator/generate_questions_v2.py:7-39 | The analysis keeps the name, unique and null counts, and the first ≤10 present values in table order. A numeric column is an identifier exactly when more than 90% of its values are distinct, or its lower-cased name contains "id" or "number". Summing and averaging are then withdrawn while sorting stays. A categorical column can be grouped exactly when fewer than half its values are distinct, and it can always be counted and filtered. |
| QuestionsV2.NumericFlags | generator/generate_questions_v2.py:22-31 | The numeric flags: sum and mean hold exactly when the column is not an identifier; sort always holds; no categorical flag is set. |
| QuestionsV2.CategoricalFlags | generator/generate_questions_v2.py:32-37 | The categorical flags: value counts and filter always hold, group-by exactly when grouping is sensible, and no numeric flag is set. |
| QuestionsV2.DescribeColumn | generator/generate_questions_v2.py:41-59 | The description is one of the eight labels, in the priority order of the checks. Each label is chosen exactly when the lower-cased name matches its pattern and none of the earlier ones: "name"; then "date" or "year"; "price" or "cost"; "count" or "number"; "id"; "status"; "type" or "category". "Data field" is chosen exactly when no pattern occurs. |
| QuestionsV2.DescribeOverlaps | generator/generate_questions_v2.py:44-53 | The order decides overlaps: "id" with "name" is a "Name identifier". "id" with "count" or "number" and no earlier pattern is a count. "id" with "status", "type" or "category" and no earlier pattern is a "Unique identifier". |
| QuestionsV2.DescribeIdNumber | generator/generate_questions_v2.py:44-53 | The column `id_number` is described as "Count or quantity", not as an identifier. |
| QuestionsV2.EntityType | generator/generate_questions_v2.py:220-238 | The entity noun is the mapped one for the fourteen known datasets and "record" exactly for the others. |
| QuestionsV2.ExplainUsesFirstTwo | generator/generate_questions_v2.py:450-457 | No recognised concept gives "". One recognised concept gives its explanation. Otherwise the result is the explanations of the first two recognised concepts, joined by a space. |
| QuestionsV2.KnownExplanationsHead | generator/generate_questions_v2.py:452-455 | The list of explanations starts with those of the first and second recognised concepts, and has one entry when only one concept is recognised. |
| Capabilities.Samples | generator/generate_questions_v2.py:14 | `sample_values` is the first `limit` present values in table order, or all of them when there are fewer. |
| Tables.NonMissingMembers | generator/generate_questions_v2.py:14 | A value is among the present values exactly when some cell holds it. |
| Tables.NonMissingAppend | generator/generate_questions_v2.py:14 | Dropping missing cells distributes over concatenation, so it is the order-preserving filter. |
| Tables.UniqueCountBound | generator/generate_questions_v2.py:12-19 | Distinct values plus missing cells never exceed the row count, so the unique ratio is at most 1. |
| Tables.Occurrences | generator/generate_questions_v2.py:263-264 | A value's count in `value_counts()` is positive exactly when some cell holds it. |
| Tables.HeadRows | generator/generate_questions_v2.py:342 | `df[cols].head(n)` has min(rows, n) rows of one cell per chosen column, each equal to the table's cell. |
| Tables.NamesAtNoDup | generator/generate_questions_v2.py:336-340 | Distinct choices of distinctly named columns give distinct names. |
| CatalogV2.CatalogUsable | generator/generate_questions_v2.py:61-205 | Every v2 template can be formatted with exactly the keyword arguments the synthesizer passes (no `KeyError`). Its code uses the column and every bound argument, and it names at least one concept (the hint uses the first). |
| CatalogV2.CatalogWellFormed | generator/generate_questions_v2.py:61-205 | The v2 catalog has sixteen templates with distinct ids and difficulty 1 or 2. |
| Templates.RenderMentions | generator/generate_questions_v2.py:329-333 | Formatting a pattern whose holes all have arguments puts each hole's argument into the result. |
| Templates.IdsNoDup | generator/generate_question_bank.py:39-152 | Distinct ids in the id list mean distinct template ids. |
| SynthesisV2.Profiles | generator/generate_questions_v2.py:215-218 | There is one analysis per column, in column order. |
| SynthesisV2.BindLiteral | generator/generate_questions_v2.py:259-326 | The literal step is skipped exactly in these cases: a one-value template on a column without samples or repeated values; a threshold template on a non-numeric or sample-less column; a two-value template with fewer than two samples or repeated values. Otherwise one value comes from the first 5 repeated values, or two from the first 10 that differ when the list has no duplicates, or the median. |
| SynthesisV2.BoundValuesRepeat | generator/generate_questions_v2.py:263-268 | Every bound value occurs more than once in its column, and two bound values are distinct. |
| SynthesisV2.PreviewColumns | generator/generate_questions_v2.py:336-340 | Preview columns start with the question column, then the partner column. There are at most three, any others are non-identifiers, and none repeats. |
| SynthesisV2.PreviewColumnsComplete | generator/generate_questions_v2.py:336-340 | A non-identifier column other than the question column is previewed unless the preview is already full. |
| SynthesisV2.PreviewOf | generator/generate_questions_v2.py:342 | The preview has the header plus min(rows, 5) rows, each cell equal to the table's cell of the previewed column. |
| SynthesisV2.Descriptions | generator/generate_questions_v2.py:344-347 | Exactly the previewed columns are described, each by its label. |
| SynthesisV2.PairsFrom | generator/generate_questions_v2.py:372-432 | The partner loop numbers its questions consecutively. It pairs only later columns, and it stops after the first question that brings the counter to a multiple of 5. |
| SynthesisV2.PairsFromSound | generator/generate_questions_v2.py:372-384 | Every partner is a distinct non-identifier column meeting some `requires_other` key. |
| SynthesisV2.PairsCover | generator/generate_questions_v2.py:372-432 | Every eligible partner column is paired unless the loop stopped early on the multiple-of-5 break. |
| SynthesisV2.SynthColumnsSound | generator/generate_questions_v2.py:245-333 | Every choice the loops make is sound: a non-identifier column meeting every `requires` flag, and a literal bound by the template's rule or a valid partner. |
| SynthesisV2.SynthColumnsCovers | generator/generate_questions_v2.py:245-268 | Every non-identifier column gets a question from every single-column template whose flags it meets and whose literal can be bound. |
| SynthesisV2.SynthColumnsPairs | generator/generate_questions_v2.py:245-432 | Under every two-column template a non-identifier column meets, each eligible partner is paired with it, or that template's partner loop stopped first on the multiple-of-5 break. |
| SynthesisV2.QuestionIdSerial | generator/generate_questions_v2.py:351 | The counter is read back from the digits after the last underscore of an id. |
| SynthesisV2.QuestionIdInjective | generator/generate_questions_v2.py:351 | Different counters give different ids, whatever the template ids. |
| SynthesisV2.RenderCode | generator/generate_questions_v2.py:284-333 | The code names the column, the partner column and every bound value. |
| SynthesisV2.MakeQuestion | generator/generate_questions_v2.py:350-364 | A question keeps its dataset, id, concepts and difficulty from its template and counter. Its code names its columns and bound values, and the preview starts with its column. |
| SynthesisV2.BuildIdsDistinct | generator/generate_questions_v2.py:367 | Questions with distinct counters have distinct ids. |
| SynthesisV2.GenerateForDataset | generator/generate_questions_v2.py:208-434 | A table with columns but no rows raises. Otherwise questions are numbered 1, 2, … in loop order, every one comes from a sound choice, and ids are distinct. |
| SynthesisV2.GenerateCoversTemplates | generator/generate_questions_v2.py:245-268 | In the questions of a dataset with rows, every non-identifier column has a question from every single-column template whose flags it meets and whose literal it can bind. |
| SynthesisV2.GeneratePairsCover | generator/generate_questions_v2.py:372-432 | In the questions of a dataset with rows, every eligible partner of a non-identifier column under a two-column template it meets is paired with it, unless that template's partner loop stopped first on the multiple-of-5 break. |
| SynthesisV2.AddExplanations | generator/generate_questions_v2.py:436-459 | Every question gets the explanation of its concepts and nothing else changes. |
| SynthesisV2.MainDatasetsNamed | generator/generate_questions_v2.py:470-481 | Every dataset `main` processes has its own entity noun. |
| SynthesisV2.DatasetQuestions | generator/generate_questions_v2.py:487-493 | A failing dataset contributes nothing. Otherwise its questions are all explained and belong to it. |
| SynthesisV2.PoolFrom | generator/generate_questions_v2.py:483-493 | The pool holds only explained questions of datasets that loaded. |
| SynthesisV2.FileQuestions | generator/generate_questions_v2.py:483-493 | A missing or unloadable file contributes nothing; a loaded one contributes its dataset's explained questions. |
| Text.ConcatKeeps | generator/generate_questions_v2.py:490 | `all_questions.extend` loses nothing: every question of every file's part is in the joined pool. |
| SynthesisV2.PoolKeepsDataset | generator/generate_questions_v2.py:483-490 | Every question generated for a loaded file is in the pool. |
| SynthesisV2.GenerationPool | generator/generate_questions_v2.py:461-496 | `main`, before the shuffle, with the v2 catalog. |
| QuestionBank.AnalyzeBank | generator/generate_question_bank.py:6-37 | The same identifier rule with `can_rank` in place of `can_sort` and ≤5 samples. A categorical column gets group-by exactly when fewer than half its values are distinct, and no `can_filter`. |
| QuestionBank.BankNumericFlags | generator/generate_question_bank.py:21-30 | Rank always holds; sum and mean hold exactly for non-identifiers. |
| QuestionBank.BankCategoricalFlags | generator/generate_question_bank.py:31-35 | Value counts always hold and group-by exactly when grouping is sensible. No filter flag is set. |
| QuestionBank.BankEntity | generator/generate_question_bank.py:163-176 | Six datasets have a written-out noun. Otherwise the noun is the name without ".csv" with every trailing "s" stripped: it is a prefix, it does not end in "s", and only "s" was removed. |
| QuestionBank.BankEntityStripsAll | generator/generate_question_bank.py:164 | `rstrip('s')` over-strips: "glass.csv" becomes "gla". |
| QuestionBank.BankColumns | generator/generate_question_bank.py:181-287 | The loops keep exactly the sound picks, in loop order, including those on identifier columns. A sound pick meets every `requires` flag, and either has a bindable literal, or a different other column meeting some `requires_other` key. |
| QuestionBank.BankPairs | generator/generate_question_bank.py:250-257 | The partner loop keeps exactly the other columns meeting some `requires_other` key, in column order. |
| QuestionBank.BankBind | generator/generate_question_bank.py:199-228 | A value template binds the first sample. A substring template binds the first ≤3 characters of a string first sample. |
| QuestionBank.BankRenderCode | generator/generate_question_bank.py:207-235 | The code names the column, the bound value or substring, and the other column. |
| QuestionBank.BankRenderQuestion | generator/generate_question_bank.py:202-222 | The question shows the bound value or substring. |
| QuestionBank.Recorded | generator/generate_question_bank.py:237-244 | Status is valid exactly when `eval` returned. A valid result is the printed result cut to 200 characters: all of it when it is shorter, its first 200 characters otherwise. An error result is "Error: " followed by the message. |
| QuestionBank.BankRecordFor | generator/generate_question_bank.py:189-285 | A record describes its pick. Its result and status are exactly what `Recorded` makes of running its own code. A value or substring record's code holds the bound sample. |
| QuestionBank.BankRecords | generator/generate_question_bank.py:178-287 | One record per pick, in loop order. Each record's result and status are exactly what `Recorded` makes of running its own code. |
| QuestionBank.BankRecordsExact | generator/generate_question_bank.py:181-287 | Every sound pick has a record and every record comes from a sound pick. |
| QuestionBank.BankNoGroupbyCount | generator/generate_question_bank.py:94-101 | `'any'` is never an analysis key, so a template asking its other column for `'any'` never yields a record. With the script's catalog, where `groupby_count` asks for `'any'` (CatalogBank.BankGroupbyCountAny), `groupby_count` never yields a record. |
| QuestionBank.BankAggregatesSkipIdentifiers | generator/generate_question_bank.py:65-78 | In a catalog where `mean_simple` needs `can_mean` and `sum_simple` needs `can_sum`, as the script's does (CatalogBank.BankAggregatesNeedFlags), those records never come from an identifier column. |
| QuestionBank.BankForDataset | generator/generate_question_bank.py:154-161 | A table with columns but no rows raises; otherwise the dataset's records. |
| QuestionBank.BankPool | generator/generate_question_bank.py:304-310 | A missing file is skipped. With no `try`, a found file that cannot be parsed, or whose table has columns but no rows, ends the run. Otherwise every record belongs to a found file. |
| QuestionBank.FileResult | generator/generate_question_bank.py:306-309 | One file's share of the pool: nothing for a missing file, and the end of the run exactly when the file cannot be parsed or has columns but no rows. Any record it adds comes from a parsed file and carries that file's name. |
| QuestionBank.BankPoolNames | generator/generate_question_bank.py:304-310 | Every record of the joined pool carries the name of a file, from the current position on, that exists and parses. |
| QuestionBank.BankPoolJoins | generator/generate_question_bank.py:304-310 | The pool is the files' record blocks joined in file order. |
| QuestionBank.BankPoolPlaces | generator/generate_question_bank.py:304-310 | Every record of a parsed file reaches the pool, as one block placed after the records of all earlier files. |
| QuestionBank.CountValid | generator/generate_question_bank.py:326 | The valid count is at most the total. It equals the total exactly when all records are valid, and is 0 exactly when all failed. |
| QuestionBank.CountValidAppend | generator/generate_question_bank.py:326 | The valid count adds over concatenation, and one record counts 1 exactly when it is valid, so the count is the number of valid records. |
| QuestionBank.BankMain | generator/generate_question_bank.py:289-335 | The output carries the clock reading as its `generated_at`, its total and valid counts agree with its records, the run fails exactly when a file crashes, and every record's dataset was found. |
| QuestionBank.BankMainJoins | generator/generate_question_bank.py:289-335 | With the script's catalog, the output's records are the files' record blocks joined in file order. |
| QuestionBank.BankDatasetsNamed | generator/generate_question_bank.py:295-302 | Every dataset `main` processes has a written-out noun. |
| CatalogBank.BankCatalogUsable | generator/generate_question_bank.py:39-152 | Every bank template can be formatted with exactly the keyword arguments the generator passes. The code names the column and the bound literal. |
| CatalogBank.BankCatalogWellFormed | generator/generate_question_bank.py:39-152 | The bank catalog has fourteen templates with distinct ids and difficulty 1 or 2. |
| CatalogBank.BankGroupbyCountAny | generator/generate_question_bank.py:94-101 | Only `groupby_count` lists `'any'` as its `requires_other`. |
| CatalogBank.BankAggregatesNeedFlags | generator/generate_question_bank.py:65-78 | `mean_simple` needs `can_mean` and `sum_simple` needs `can_sum`. |
| QuestionBank.FilterEqualsRenders | generator/generate_question_bank.py:131 | `filter_equals` puts its value operand between its own single quotes. |
| QuestionBank.FilterEqualsAsWrittenBroken | generator/generate_question_bank.py:207-210 | As written, a categorical value is quoted twice, so the operand is not one string literal. |
| QuestionBank.FilterEqualsCorrected | generator/generate_question_bank.py:131 | With the value passed unquoted, the operand is one string literal. |
| Review.Check | generator/review_questions.py:26-69 | A failed check clears the flag it guards and appends its reason; a passed one changes nothing. |
| Review.HighCardinalityCount | generator/review_questions.py:38 | The grouping reason's text is "Grouping by <column> has too many unique values (" followed by digits and ")", and the digits read back as the distinct-value count. |
| Review.Probes | generator/review_questions.py:25-69 | The eight checks in source order: the id check, the grouping check (only for a known grouped column, carrying its distinct-value count), the error check (carrying `eval`'s message), the empty and long result checks (guarding `is_meaningful`), and the three odd phrasings. |
| Review.Failed | generator/review_questions.py:14-69 | A reason is reported exactly when some check failed with it. None is reported exactly when no check fails for either flag. |
| Review.FailedByKind | generator/review_questions.py:25-69 | When each check has its own reason kind, a reason is reported exactly when the check of its kind failed with that reason. |
| Review.FailedKind | generator/review_questions.py:25-69 | When each check has its own reason kind, some reason of kind n is reported exactly when check n failed. |
| Review.BlockedTail | generator/review_questions.py:25-69 | A flag is cleared by a run of checks exactly when the first check or one of the rest clears it. |
| Review.BlockedOfEight | generator/review_questions.py:25-69 | A flag is cleared by eight checks exactly when one of the eight clears it. |
| Review.RunProbes | generator/review_questions.py:14-71 | Running the checks one after the other keeps a flag exactly when no check guarding it fails. The reasons of the failed checks are appended in order. |
| Review.StaticReasons | generator/review_questions.py:25-38 | The id reason is reported exactly on an aggregated id-like column. A grouping reason is reported exactly when the grouped known column is over half distinct, and it names that column and its distinct-value count. |
| Review.RunReasons | generator/review_questions.py:40-57 | An execution error is reported exactly when `eval` raises, and it carries the raised message. The empty-result and too-many-categories reasons are reported exactly on an empty DataFrame and on a Series over 100 long. |
| Review.OddReasons | generator/review_questions.py:59-69 | Each odd-phrasing reason is reported exactly when its phrase occurs in the lower-cased question. |
| Review.EvaluateQuestion | generator/review_questions.py:10-71 | `makes_sense` fails exactly on an aggregated id-like column, a grouped existing column with over half its values distinct, an execution error, or an odd phrase. `is_meaningful` fails exactly on an empty DataFrame or a Series over 100 long. The reasons are empty exactly when both flags hold, and they are the failed checks' reasons in the order the checks run. Details below the table. |
| Review.ColumnIndex | generator/review_questions.py:34 | `name in df.columns`: a position holding the name, or none exactly when no column has it. |
| Review.DetermineConceptsExact | generator/review_questions.py:115-140 | A concept is reported exactly when its code fragment occurs, and no concept repeats. |
| Review.ConceptsOfExact | generator/review_questions.py:136-138 | For any table of distinct concepts, the scan reports a concept exactly when its fragment occurs, without repeats. |
| Review.MatchedFrom | generator/review_questions.py:136-138 | The matched table positions are increasing and are exactly those whose fragment occurs. |
| Review.ConceptNamesDistinct | generator/review_questions.py:119-134 | The fourteen concept names are distinct. |
| Review.GenerateHint | generator/review_questions.py:142-152 | The hint is the mapped one for the five known template ids and the fallback for every other id. |
| Review.HintsNameBankTemplates | generator/review_questions.py:144-150 | Every hinted template id is a bank template id. |
| Review.ContextOf | generator/review_questions.py:89-102 | The context is the written-out one for six datasets, else "Dataset of " + name. |
| Review.ReviewDatasetsDescribed | generator/review_questions.py:89-96 | Every dataset the reviewer loads has a written-out context. |
| Review.AskedColumns | generator/review_questions.py:80-82 | The asked columns are the question column, then the other column when there is one. |
| Review.PreviewNames | generator/review_questions.py:85 | The data columns: 1 to 5 distinct names, starting with the question column and then the other column. They are exactly the asked columns and the first three table columns. |
| Review.PreviewNamesInOrder | generator/review_questions.py:85 | The data columns keep the candidates' order: the asked columns, then the first three table columns in table order, each where it first occurs. |
| Text.DedupKeepsPrefix | generator/review_questions.py:85 | `dict.fromkeys` keeps a duplicate-free prefix in place. |
| Text.Dedup | generator/review_questions.py:85 | `list(dict.fromkeys(xs))` has no duplicates, the same members as `xs`, and starts with `xs[0]`. |
| Text.DedupInOrder | generator/review_questions.py:85 | `dict.fromkeys` keeps the elements in the order of their first occurrence. |
| Text.DedupUnique | generator/review_questions.py:85 | Any duplicate-free sequence of exactly the members of `xs`, in order of first occurrence, is `list(dict.fromkeys(xs))`. |
| Text.FirstIndexPrefix | generator/review_questions.py:85 | An element of a prefix first occurs within that prefix. |
| Review.PreviewNamesKnown | generator/review_questions.py:85-86 | Selecting the data columns fails exactly when an asked column is missing from the table. |
| Review.CreateFinalQuestion | generator/review_questions.py:73-113 | Missing columns raise. Otherwise the final question has the data columns, min(rows, 5) preview rows holding the table's cells, unchanged dataset/question/code/result/difficulty, the context, concepts and hint. |
| Review.WithState | generator/review_questions.py:170-172 | The table gains a last column "state" of "Unknown" cells, and nothing else changes. |
| Review.Prepared | generator/review_questions.py:169-172 | The powerplants table always has a "state" column afterwards. The table is changed exactly when it is the powerplants table and has no "state" column. Then it keeps every column and cell and gains one last "state" column of "Unknown" cells; any other table comes back unchanged. |
| Review.LoadDatasets | generator/review_questions.py:163-175 | Exactly the reviewer's datasets that read successfully are loaded. Each keeps its columns and cells as read and gains at most one column; it equals the table as read exactly unless it is the powerplants table without a "state" column. |
| Review.Judge | generator/review_questions.py:181-199 | A question is accepted exactly when it is valid, its dataset loaded and both evaluation flags hold. Otherwise it is rejected as invalid code, as dataset not found, or with non-empty reasons, each exactly in its case. Reviewing raises exactly in the evaluation's division by zero or a missing preview column. |
| Review.Verdicts | generator/review_questions.py:181-199 | One verdict per raw question, in order. |
| Review.ReviewAll | generator/review_questions.py:178-199 | Every question lands in good or rejected: the sizes add up. Good questions are the accepted ones, and each rejection is paired with its own question. |
| Review.Positions | generator/review_questions.py:181-199 | The listed positions are increasing, and each one's verdict sends its question to the requested list. |
| Review.PositionsComplete | generator/review_questions.py:181-199 | Every position whose verdict sends its question to the requested list is listed. |
| Review.ReviewStep | generator/review_questions.py:181-199 | One loop step: the last verdict appends its question to `good` or, with its reason, to `rejected`. |
| Review.GoodExtend | generator/review_questions.py:194-197 | One more verdict appends its question to `good` exactly when it accepts, keeping `good` lined up with the accepting positions. |
| Review.RejectedExtend | generator/review_questions.py:181-199 | One more verdict appends its question and reason to `rejected` exactly when it rejects, keeping `rejected` lined up with the rejecting positions. |
| Review.ReviewAllGood | generator/review_questions.py:194-197 | `good` holds one accepted question per accepting verdict, in the order of the verdicts. |
| Review.ReviewAllRejected | generator/review_questions.py:181-199 | `rejected` holds one (question, reason) pair per rejecting verdict, with that verdict's question and reason, in order. |
| Review.AcceptedPositions | generator/review_questions.py:181-197 | Without a raising review, the accepting verdicts stand at exactly the positions of the acceptable questions. |
| Review.RejectedPositions | generator/review_questions.py:181-199 | Without a raising review, the rejecting verdicts stand at exactly the positions of the questions that are not acceptable. |
| Review.ReviewGoodFinal | generator/review_questions.py:181-199 | `good` is exactly the final forms of the acceptable questions, in their original order. |
| Review.ReviewRejectedFinal | generator/review_questions.py:181-199 | `rejected` is exactly the questions that are not acceptable, in their original order, each with the reason its verdict gives. |
| Review.ReviewAllExact | generator/review_questions.py:178-199 | The run raises exactly when some question raises. Otherwise the number of good questions equals the number of acceptable ones, and every rejected question is one of the input, not acceptable, and rejected for the stated reason. |
| Review.CountsAgree | generator/review_questions.py:194-197 | Counting accepted verdicts counts acceptable questions. |
| Review.Bump | generator/review_questions.py:223 | `counts.get(name, 0) + 1`: the entry for the name grows by one (appended with 1 when new), every other entry is unchanged, and the total grows by one. |
| Review.DatasetCounts | generator/review_questions.py:220-223 | The counted datasets are the accepted questions' datasets in first-seen order, and the counts add up to the number of questions. |
| Review.DatasetCountsExact | generator/review_questions.py:220-223 | Each dataset's count is the number of accepted questions from it. |
| Review.OccursPositive | generator/review_questions.py:220-223 | A dataset is counted at all exactly when some accepted question comes from it. |
| Review.ReviewMain | generator/review_questions.py:154-228 | `main`: the run raises exactly when some question raises. `totalQuestions` equals the number of acceptable questions. `generatedAt` is copied from the input. The per-dataset counts are exact, name loaded datasets, and add up to `totalQuestions`. |
| Review.ReviewMainQuestions | generator/review_questions.py:181-212 | The written `questions` are exactly the final forms of the acceptable raw questions, in their original order. |
| Numerals.ParseNatToString | generator/review_questions.py:38 | A printed count reads back as itself. |
| Numerals.ParseZeroPad | generator/generate_questions_v2.py:351 | `:03d` padding reads back as the number. |
| Text.ConcatPlaces | generator/generate_question_bank.py:310 | Repeated `extend` places each part, unchanged, right after the lengths of the parts before it. |
| Text.ConcatLength | generator/generate_question_bank.py:310 | The joined length is the sum of the parts' lengths. |
| Text.JoinAll | generator/generate_question_bank.py:304-310 | A loop that extends a list part by part, where any part may end the run, fails exactly when some part from the current position on fails. |
| Text.JoinAllConcat | generator/generate_question_bank.py:304-310 | When no part fails, the loop's list is the parts joined in order. |
| Text.ContainsIff | generator/review_questions.py:26 | `pat in s` holds exactly when `pat` occurs at some position of `s`. |
| Text.RStrip | generator/generate_question_bank.py:164 | `rstrip(c)` leaves a prefix not ending in `c`, having removed only `c`s. |
| Text.RemoveCsvSuffix | generator/generate_question_bank.py:164 | Removing ".csv" from a name that gains it only at the end gives the bare name. |

`Review.EvaluateQuestion` states one property per issue:

- `makes_sense` holds exactly when none of these happens:
  - the id/code/number/zip column is aggregated with `.mean()` or `.sum()`;
  - more than half of a grouped, existing column's values are distinct;
  - the code raises;
  - one of the three odd phrases occurs.
- `is_meaningful` holds exactly when the result is neither an empty DataFrame nor a Series longer than 100.
- The reasons are empty exactly when both flags hold.
- The identifier reason comes first. The reasons are the failed checks' reasons in the order of `Review.Probes`; `Review.StaticReasons`, `Review.RunReasons` and `Review.OddReasons` give the iff for each reason.
- Grouping an existing column of an empty table divides by zero (`None`).

## Left out

- File and console I/O: reading CSV and JSON files, `os.chdir`, `os.path.exists` and printing. A file is given as missing, unreadable or loaded. The v2 generator and the reviewer skip an unreadable file. The bank generator reads without a `try`, so an unreadable file ends its run. The JSON output is a datatype.
- `eval` and pandas: `value_counts`, `groupby`, `mean`, `median` and the other computations are not modelled. `run` stands for `eval`, and `ColumnStats` stands for the `value_counts` index and the rounded median.
- Float formatting: the median threshold of `filter_numeric_greater` is an opaque string, because `round(median, 2)` and its printing are floating point.
- Randomness: `random.choice` and `random.sample` are the `pick` parameter. `random.shuffle` at the end of the v2 `main` is left out. `SynthesisV2.GenerationPool` is the pool before the shuffle, whose order carries no meaning after it.
- Pandas ordering: the order of `value_counts()` is not modelled. The caller supplies the list of values occurring more than once, constrained only by `StatsAgree`.
- Pandas dtype inference: `is_numeric_dtype` is a declared column kind.
- Unicode: `lower()` is ASCII-only.
- The clock: `datetime.now().isoformat()` in the bank `main` (generator/generate_question_bank.py:324) is the parameter `now` of `QuestionBank.BankMain`, stored as `generatedAt`. The reviewer copies `data['generated_at']` (generator/review_questions.py:214) and takes it as the parameter `generatedAt` of `Review.ReviewMain`.
- Reading each script's own source: the templates are written as pieces and holes rather than parsed from format strings at run time.
- The reviewer's rejected-question examples and the bank `main`'s printed examples are console output and are left out.
- SynthesisV2.MakeQuestion: the context and hint strings are built as the source builds them, but the contract does not restate them.
- Review.Raises: a question whose column is absent from its table makes `create_final_question` raise `KeyError`. The whole run then raises (`None`), as in the source: the exception escapes before `json.dump` (generator/review_questions.py:225), so no output is written.
- QuestionBank.BankBind: the code operand of `filter_equals` is the corrected one (see Findings), so a categorical value is quoted once, by the template.

## Findings

| source | as written | input that shows it | evidently intended | confidence | as-written member | corrected member |
|---|---|---|---|---|---|---|
| generator/generate_question_bank.py:207-210 | `needs_value` passes `f"'{value}'"` for a non-numeric column, and the `filter_equals` code template (line 131) already has quotes around `{value}` | a categorical column `fuel` whose first sample is `Coal` gives `len(df[df['fuel'] == ''Coal''])`, which is not valid Python. Most values make the record an error; a value such as `+` gives `''+''`, which runs but compares with the empty string | `len(df[df['fuel'] == 'Coal'])`: the value quoted once | high; not executed | QuestionBank.FilterEqualsAsWrittenBroken | QuestionBank.FilterEqualsCorrected |
