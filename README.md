# Evaluation workflow of a RAG domain-knowledge assistant, in Dafny

This project models the two evaluation scripts of the assistant.

**The benchmark runner** (`scripts/eval_run.py`) runs a fixed list of ten benchmark questions against the assistant's `answer()` function. For each item it:

- skips the item when the query is empty after stripping;
- asks the stripped query;
- re-ranks the returned sources from 1, with defaults for missing keys;
- writes one JSON record with "unlabeled" placeholder labels to a run log named `data/logs/eval_runs/<date>__<sanitised run id>.jsonl`;
- bumps the "unlabeled" entry of two label counters.

**The labeling tool** (`scripts/eval_label.py`):

- picks the newest run log (or the one given);
- drops blank lines;
- walks the records from a start index, skipping those that already carry labels;
- for every other record, collects three closed-choice labels and a note from the operator, sets exactly five fields, and appends the record to an output log;
- stops once its counter of labels exceeds the limit;
- finally builds frequency tables over the whole output log.

Modules:

- `Wrappers`: `Option` and `Result`.
- `Json`: parsed JSON values. A record is a `map<string, Value>`, so an absent field, `null`, `""`, `"None"` and `"unlabeled"` stay distinct. It also models Python's `dict.get` and truthiness.
- `Text`: `str.strip()` (Python's whitespace set), `lower()`, single-character `replace()`, and `splitlines()`.
- `Counters`: Python dicts used as counters. They are insertion-ordered, so a counter is a list of (key, count) pairs.
- `EvalLabel`: the labeling tool.
- `EvalRun`: the benchmark runner.
- `Pipeline`: a run log read back by the labeling tool.

State that the scripts change step by step is modelled by methods with loops:

- the re-prompt loop;
- the labeling loop;
- `_count`;
- the `retrieved_for_log` loop;
- the `run_eval` loop.

Each loop is proved against a specification function (`Tally`, `Ranked`, `RunUpTo`) or against the properties the scripts promise. Operator input is a scripted list of lines consumed one at a time; running out of lines stands for `input()` raising EOFError. `answer()`, the clocks and the latency measurement are parameters.

The model follows the code as written, including these points:

- `_prompt_choice` never returns its `default`: an empty line is just another invalid answer.
- The labeling loop's guard is `labeled > limit`, so one session can label `limit + 1` records.
- The skip test compares `retrieval_label` with the string `"None"`. An absent or null `retrieval_label` therefore does not stop a record with a real `answer_label` from being skipped.
- The record display runs before the prompts and can raise. `_preview` raises on a truthy `expected_answer` that is not a string. The source listing raises on a truthy `retrieved` that is not a list, or one whose first three entries are not all objects; later entries are never looked at. Either ends the session before that record is labeled (`DisplayFailed`).
- `json.loads` raises on a malformed line. Only blank lines are dropped before records are indexed.
- In the summary counter, a falsy value (`null`, `""`, `0`, `false`, `[]` or `{}`) counts as "unlabeled", like an absent one. A non-empty list or dict value makes `_count` raise TypeError.

The docstrings of `scripts/eval_label.py` say otherwise on three of these points:

- `_prompt_choice`: "If the user submits an empty input and a default is provided, the default is returned."
- `--limit`: "number of records to label in this run (default 5)".
- `main`: "Safe to re-run: records that already have non-"unlabeled" labels are skipped."

The labeling loop is proved for any choice lists that contain none of the skip test's placeholder values (`SkipSafe`). `LabelSession` takes the lists as a parameter, and `LabelMain` passes the tool's own (`Lists`). The loop's invariant is proved for any reader of operator input that behaves like the prompts (`Valid`). The lemmas `SessionLabels` and `SessionEndOfInput` then pin down what the prompts themselves read.

## Model

| member | source | states |
|---|---|---|
| `Counters.Increment` | scripts/eval_label.py:271 | `c[v] = c.get(v, 0) + 1` on an insertion-ordered dict, as a definition. Its effect is stated by `IncrementCounts`, `IncrementKeys` and `IncrementDistinct`. |
| `Counters.IncrementCounts` | scripts/eval_label.py:271 | bumping `k` adds one to `k`'s count and to the total, and leaves every other count as it was. |
| `Counters.IncrementKeys` | scripts/eval_label.py:271 | bumping a known key keeps the key order; a new key is appended after the existing ones. |
| `Counters.IncrementDistinct` | scripts/eval_label.py:271 | bumping keeps distinct keys distinct. |
| `Counters.Tally` | scripts/eval_label.py:268-271 | the dict the `_count` loop builds: one increment per value, in order, as a definition. What it counts is stated by `TallyCounts`. |
| `Counters.TallyCounts` | scripts/eval_label.py:267-272 | the counter built from a list of values counts each value exactly as often as it occurs (its multiset count). It has one entry per distinct value, exactly the values present are keys, and the counts add up to the number of values. |
| `Counters.TallySnoc` | scripts/eval_label.py:269-271 | counting one more value is one more in-place increment. |
| `Counters.IncrementLast` | scripts/eval_run.py:168-169 | bumping a key that sits last, behind other keys, changes only its own entry. |
| `Counters.GetAfterZeroes` | scripts/eval_run.py:129-140 | zero entries followed by `k` with count `n` read `n` at `k` and 0 at every other key. |
| `Counters.TotalAfterZeroes` | scripts/eval_run.py:129-140 | zero entries followed by one count `n` add up to `n`. |
| `Text.Strip` | scripts/eval_run.py:148 | `str.strip()` over Python's whitespace set; the result is never longer than the input. `StripSpec` and `StripCutsSpaces` state what it keeps. |
| `Text.StripEndSpec` | scripts/eval_run.py:148 | stripping the back keeps the longest prefix that does not end in whitespace, and everything it cuts is whitespace. |
| `Text.StripSpec` | scripts/eval_run.py:148 | `strip()` keeps a contiguous slice of the input, starting right after the leading whitespace, that neither starts nor ends with whitespace. |
| `Text.StripCutsSpaces` | scripts/eval_run.py:148 | everything `strip()` cuts away is whitespace. The result is empty exactly when the input is all whitespace. |
| `Text.StripTrimmed` | scripts/eval_run.py:148 | text that neither starts nor ends with whitespace is non-empty and stripped already. |
| `Text.StripIdempotent` | scripts/eval_label.py:138 | stripping twice is stripping once. |
| `Text.LowerIdempotent` | scripts/eval_label.py:138 | lower-casing twice is lower-casing once: no lower-cased character is changed again. |
| `Text.LowerKeepsLowerCase` | scripts/eval_label.py:138 | text without capitals (and without the Kelvin sign) is its own lower case, so the choice lists match typed lines in any case. |
| `Text.ReplaceCharSpec` | scripts/eval_label.py:111 | replacing a character keeps the length and every other character in place and leaves none of the replaced character behind. The text is unchanged exactly when that character does not occur in it or is replaced by itself. |
| `Text.Delete` | scripts/eval_run.py:105 | removing a character never lengthens the string. The result never contains that character and draws its characters from the input. |
| `Text.DeleteConcat` | scripts/eval_run.py:105 | removing a character distributes over concatenation. |
| `Text.LineEnd` | scripts/eval_label.py:202 | the first line boundary of `splitlines()` in a text: nothing before it is a boundary, and the character there is one. |
| `Text.SplitLines` | scripts/eval_label.py:202 | `read_text().splitlines()`: no piece contains a line boundary (`\n`, `\r`, `\v`, `\f`, `\x1c`-`\x1e`, U+0085, U+2028, U+2029). |
| `Text.SplitJoin` | scripts/eval_label.py:202 | lines without a boundary, each written followed by `\n`, are split back into exactly those lines. |
| `Text.SplitAtLineSeparator` | scripts/eval_label.py:202 | a written line holding a raw U+2028 is read back as two pieces, so the one-line-per-record reading needs lines without boundaries. |
| `EvalLabel.NewestIndex` | scripts/eval_label.py:91-93 | the position a stable sort by descending mtime puts first: no file is newer, and every file listed before it is strictly older. |
| `EvalLabel.LatestJsonl` | scripts/eval_label.py:91-93 | fails (FileNotFoundError) exactly when there is no `.jsonl` file. Otherwise it returns one of the files, and no file has a later mtime. |
| `EvalLabel.NonBlank` | scripts/eval_label.py:203 | keeps only lines whose stripped text is non-empty, each taken from the input, and never more lines than the input has. |
| `EvalLabel.NonBlankConcat` | scripts/eval_label.py:203 | the blank-line filter distributes over concatenation, so kept lines stay in file order. |
| `EvalLabel.NonBlankKeepsRecordLines` | scripts/eval_label.py:203 | a file whose lines are all non-blank is read back line for line. |
| `EvalLabel.SliceTo` | scripts/eval_label.py:112 | `s[:n]` is a prefix of `s`. For `n >= 0` its length is `min(n, len(s))`. For negative `n` it drops `-n` characters from the end, leaving none when `-n` exceeds the length. |
| `EvalLabel.Flatten` | scripts/eval_label.py:111 | `None` reads as empty. The result has the stripped text's length and its characters in place, each newline turned into a space, so no newline is left. |
| `EvalLabel.Preview` | scripts/eval_label.py:111-112 | a flattened text of at most `n` characters is returned unchanged. A longer one becomes its first `n` characters plus "...". The result holds no newline, and for `n >= 0` it is at most `n + 3` long. |
| `EvalLabel.Entered` | scripts/eval_label.py:138 | what `input().strip().lower()` makes of a typed line, as a definition. |
| `EvalLabel.NextChoice` | scripts/eval_label.py:134-140 | the line the re-prompt loop accepts, or the end of input; it never lies before the line the prompt started at. `NextChoiceSpec` and `NextChoiceIff` state that it is the first valid line. |
| `EvalLabel.NextChoiceSpec` | scripts/eval_label.py:134-140 | the re-prompt loop started at a line accepts the first line from there on whose entered text is a choice, and every line before it was invalid. When it runs out of input, no line from there on was valid. |
| `EvalLabel.NextChoiceIff` | scripts/eval_label.py:134-140 | a line is the one accepted exactly when it is the first valid line from where the prompt started. |
| `EvalLabel.PromptChoice` | scripts/eval_label.py:134-140 | returns the entered text of the first valid line, after consuming every earlier invalid line (empty ones included). The result is always in `choices`. Running out of input consumes everything and returns nothing. |
| `EvalLabel.AlreadyLabeled` | scripts/eval_label.py:227 | the skip test as written, as a definition. Its consequences are stated by `LabelingIsSkipped` and `Pipeline.ToRowSkippedIff`. |
| `EvalLabel.DisplayRaises` | scripts/eval_label.py:233-243 | when the display raises, as a definition: a truthy non-string `expected_answer`, or a truthy `retrieved` whose first three entries are not all objects. |
| `EvalLabel.Stamp` | scripts/eval_label.py:251-255 | the five in-place assignments into the row, as a definition. `StampSpec`, `StampIsLabeling` and `LabelingIsSkipped` state their effect. |
| `EvalLabel.StampSpec` | scripts/eval_label.py:251-255 | the row keeps its keys and gains the five label fields. Each label field holds exactly the string given for it, and every other field keeps its value. |
| `EvalLabel.StampIsLabeling` | scripts/eval_label.py:246-255 | stamping with an answer label, a retrieval label and a failure bucket from the three lists yields a labeling of the row. |
| `EvalLabel.LabelingIsSkipped` | scripts/eval_label.py:227-228 | with skip-safe lists, a labeled row passes the skip test, so any later session leaves it alone. |
| `EvalLabel.ReadLabels` | scripts/eval_label.py:246-255 | the three prompts and the notes prompt from a given line: a reading starts at that line and ends within the input, or there is none when the input runs out. `ReadLabelsSpec` and `ReadLabelsNone` state which lines answer. |
| `EvalLabel.ReadLabelsSpec` | scripts/eval_label.py:246-255 | a reading's three labels are the entered text of the lines that answer the three prompts, each the first valid line after the previous answer. Its notes are the next line, stripped, and its time stamp is the one given. The row is then a labeling of the record. |
| `EvalLabel.ReadLabelsNone` | scripts/eval_label.py:246-249 | the prompts run out of input (EOFError) exactly when the rest of the input holds no answers to the three prompts plus a notes line. |
| `EvalLabel.CollectLabels` | scripts/eval_label.py:246-255 | the three prompts, the notes prompt and the five assignments return exactly the reading's row and the line after the notes. When the input runs out first they return nothing and have consumed all of it. |
| `EvalLabel.PromptsSound` | scripts/eval_label.py:246-255 | the prompts start reading at the line asked for, end within the input, and yield a labeling of the record. |
| `EvalLabel.PromptsReading` | scripts/eval_label.py:246-255 | a reading of the prompts for the k-th label takes its labels and notes from the answering lines and is stamped `clock(k)`. |
| `EvalLabel.InteractiveValid` | scripts/eval_label.py:61-72 | the prompts over skip-safe lists, the tool's own among them, satisfy what the loop's proof needs. |
| `EvalLabel.SessionStep` | scripts/eval_label.py:223-259 | one pass of the loop body, as a definition, with its checks in the code's order: the `labeled > limit` break, then `rows[i]` (IndexError), the skip test, the display (which can raise), the prompts (EOFError), and last the in-place update and the append. `LabelStep` is the loop body proved equal to it. `StepKeepsInv`, `AppendStep`, `RowsLabelStep`, `RowsSkipStep` and `SessionEnds` state what each branch does. |
| `EvalLabel.SessionUpTo` | scripts/eval_label.py:222-259 | the loop state after the indices below `i` keeps one row per input row. Its stop index lies in [start, i], and equals `i` unless the loop has left. |
| `EvalLabel.EndedIsFinal` | scripts/eval_label.py:223 | once the loop has left (`break`, EOFError, IndexError or a display error), later indices change nothing. |
| `EvalLabel.AppendStep` | scripts/eval_label.py:257-259 | appending the labeling of the row at the current loop index extends the in-order correspondence between appended rows, visited indices and readings. |
| `EvalLabel.RowsLabelStep` | scripts/eval_label.py:251-255 | writing the labels into the row in place keeps every changed row a labeling of its original and makes the visited row pass the skip test. |
| `EvalLabel.RowsSkipStep` | scripts/eval_label.py:227-228 | a skipped row leaves the input rows as they were. |
| `EvalLabel.StepKeepsInv` | scripts/eval_label.py:222-259 | one pass of the loop body keeps the session invariant, whichever way the pass goes. |
| `EvalLabel.SessionInvariant` | scripts/eval_label.py:222-263 | the session invariant holds at every index of the loop. |
| `EvalLabel.SessionLog` | scripts/eval_label.py:257-259 | the output log is only appended to, one row per label, at most `limit + 1` rows. The k-th appended row is the k-th reading, taken for the row at the k-th visited index, which was neither skipped nor made the display raise. Visited indices increase and lie in [start, stop). The first reading starts at line 0 and each later one where the one before ended. |
| `EvalLabel.SessionRerunSafe` | scripts/eval_label.py:226-228 | every row a session appends passes the skip test, so re-running over the output is safe. |
| `EvalLabel.SessionRows` | scripts/eval_label.py:251-255 | changed input rows are labelings of the original ones, and every row the loop passed now passes the skip test. For a non-negative start, rows from `stop` on are untouched, and every passed row that was not labeled was skipped already. |
| `EvalLabel.SessionEnds` | scripts/eval_label.py:222-263 | the session runs through every index or stops past the limit. It ends on IndexError exactly when `start < -len(rows)` and `limit >= 0`, having appended nothing. On EOFError or a display error it stops at a row that is not skipped, with at most `limit` labels. A display error happens exactly when that row makes the display raise, and EOFError when the reader finds no answers. |
| `EvalLabel.SessionLabels` | scripts/eval_label.py:246-255 | the k-th row the tool appends is the row at the k-th visited index with its three labels taken from the lines that answer the prompts and its notes from the next line, stripped. Its `labeled_at` is `clock(k)`. |
| `EvalLabel.SessionEndOfInput` | scripts/eval_label.py:246-249 | the tool stops on EOFError only at a row whose prompts find no answers in the rest of the input. |
| `EvalLabel.LabelSession` | scripts/eval_label.py:218-263 | the loop returns exactly the session's output log, its number of labels, its outcome, and the number of input lines read. |
| `EvalLabel.LabelStep` | scripts/eval_label.py:223-259 | one pass of the loop body advances the session by one index. |
| `EvalLabel.SummaryKey` | scripts/eval_label.py:270 | the value counted is always truthy: the field's value when present and truthy, otherwise "unlabeled". |
| `EvalLabel.Count` | scripts/eval_label.py:267-272 | raises (None) exactly when some counted value is a list or dict, which after the `or "unlabeled"` fallback means a non-empty one. Otherwise it returns the in-order tally of the counted values. |
| `EvalLabel.Summarise` | scripts/eval_label.py:274-277 | the three counts succeed exactly when every counted value is hashable. The tables are then the tallies of `answer_label`, `retrieval_label` and `failure_bucket` over the output log, each adding up to its number of rows. |
| `EvalLabel.InputLog` | scripts/eval_label.py:199-200 | the input log is `--in` when given. Otherwise it is the path of a newest run log, and there is none exactly when no run log exists. |
| `EvalLabel.OutPath` | scripts/eval_label.py:206-212 | `--out` when given, else `data/logs/eval_runs_labeled/<date>.labeled.jsonl`, as a definition. `LabelMain` ensures it is the output path. |
| `EvalLabel.LabelMain` | scripts/eval_label.py:199-277 | with neither `--in` nor a run log it fails before touching anything. Otherwise it reads `--in` or the newest run log. The output log is the session's log over that file's non-blank lines, appended to the rows the output log held, and the output path is `--out` or the dated default. It fails with EOFError, IndexError or a display error exactly when the session ends that way. It succeeds exactly when the session finishes and every counted value is hashable, and the tables are then the tallies over the whole output log. |
| `EvalRun.SanitizeRunId` | scripts/eval_run.py:105 | no ':', '-' or '.' is left in the sanitised id. |
| `EvalRun.SanitizeConcat` | scripts/eval_run.py:105 | sanitising distributes over concatenation. |
| `EvalRun.SanitizeKeepsOthersInOrder` | scripts/eval_run.py:105 | the three chained replacements equal one pass that drops exactly the separators and keeps every other character, in order. |
| `EvalRun.SanitizeWithoutSeparators` | scripts/eval_run.py:105 | an id without separators is kept unchanged. |
| `EvalRun.LogPath` | scripts/eval_run.py:102-106 | `data/logs/eval_runs/<date>__<sanitised run id>.jsonl`, as a definition. `LogPathSeparatesRuns` states what it guarantees. |
| `EvalRun.LogPathSeparatesRuns` | scripts/eval_run.py:102-106 | on the same day, two runs whose sanitised ids differ get different log files. |
| `EvalRun.SourceEntry` | scripts/eval_run.py:174-181 | one `retrieved_for_log` entry, as a definition. `SourceEntryFields` states its fields and defaults. |
| `EvalRun.Ranked` | scripts/eval_run.py:172-181 | `retrieved_for_log` as a whole, as a definition. `RankedEntries` states that entry i is source i ranked i + 1, and `RetrievedForLog` that the loop builds it. |
| `EvalRun.SourceEntryFields` | scripts/eval_run.py:174-181 | a retrieved entry is an object with exactly rank, source, score and snippet. A missing source, score or snippet becomes "unknown", null and "" respectively. |
| `EvalRun.RankedEntries` | scripts/eval_run.py:172-181 | `retrieved_for_log` has one entry per source; entry i is built from source i with rank i + 1. |
| `EvalRun.RetrievedForLog` | scripts/eval_run.py:172-181 | the `enumerate(sources, start=1)` loop builds exactly the ranked list. |
| `EvalRun.ToRow` | scripts/eval_run.py:183-197 | the JSON object a record is written as, as a definition. `ToRowFields` states its fields. |
| `EvalRun.ToRowFields` | scripts/eval_run.py:183-197 | a written record has exactly the thirteen record fields, with both labels stored as strings. |
| `EvalRun.MakeRecord` | scripts/eval_run.py:183-197 | the record of one item, as a definition. `RecordsAreFresh` states what every written record carries. |
| `EvalRun.Asked` | scripts/eval_run.py:146-152 | the positions the loop does not `continue` past, as a definition. `AskedBelow`, `AskedIncreasing`, `AskedExactly` and `AskedAll` state which they are. |
| `EvalRun.AskedBelow` | scripts/eval_run.py:146-152 | the asked positions of the first m items lie below m. |
| `EvalRun.AskedIncreasing` | scripts/eval_run.py:146-152 | the asked positions strictly increase, following benchmark order. |
| `EvalRun.AskedExactly` | scripts/eval_run.py:146-152 | a position is asked exactly when its stripped query is non-empty. |
| `EvalRun.AskedAll` | scripts/eval_run.py:146-152 | when no query strips to nothing, the asked positions are 0, 1, 2, ... in order. |
| `EvalRun.ItemResult` | scripts/eval_run.py:147-197 | the outcome of the loop body for one item, as a definition: skipped, `answer()` raised, or the record. `RunWritesAsked` and `RecordsAreFresh` state what follows. |
| `EvalRun.RunUpTo` | scripts/eval_run.py:145-199 | the progress of the loop after the first m items, as a definition. The lemmas after it state what it writes. |
| `EvalRun.FailureIsFinal` | scripts/eval_run.py:156 | once `answer()` has raised, no later item is processed. |
| `EvalRun.RunWritesAsked` | scripts/eval_run.py:146-199 | there is one item position per written record. Without a failure, the run writes exactly the items with a non-empty stripped query, in benchmark order. After a failure at item f, it writes exactly such items before f, and f itself has a non-empty query whose `answer()` raised. |
| `EvalRun.RunRecordsFor` | scripts/eval_run.py:146-199 | every written record is the record its item yields, at the position listed beside it. |
| `EvalRun.RecordsAreFresh` | scripts/eval_run.py:183-197 | each record carries its item's position as `index`, the item's id, its stripped non-empty query, the run id and `top_k`, and "unlabeled" for both labels. |
| `EvalRun.TrimmedRecords` | scripts/eval_run.py:146-199 | over items whose queries neither start nor end with whitespace, the records are those of the first items, one per position in order, each with its item's query as written. A run without failure writes every item. A run that fails at item f writes exactly the f items before it. |
| `EvalRun.AskItem` | scripts/eval_run.py:147-197 | one pass of the loop body yields exactly the item's outcome. |
| `EvalRun.AnswerCountsAfter` | scripts/eval_run.py:129-135 | `answer_label_counts` after n records, as a definition. `CountsStep`, `BumpUnlabeled` and `CountsAfterRead` state how the increments at eval_run.py:168 reach it and what it reads. |
| `EvalRun.RetrievalCountsAfter` | scripts/eval_run.py:136-140 | `retrieval_label_counts` after n records, as a definition. `CountsStep`, `BumpUnlabeled` and `CountsAfterRead` state how the increments at eval_run.py:169 reach it and what it reads. |
| `EvalRun.ZeroCountsOtherKeys` | scripts/eval_run.py:129-140 | the label keys other than "unlabeled" start at 0 and differ from "unlabeled". |
| `EvalRun.CountsStep` | scripts/eval_run.py:168-169 | bumping "unlabeled" takes both counter dicts from n records to n + 1. |
| `EvalRun.BumpUnlabeled` | scripts/eval_run.py:168-169 | the two in-place increments advance both counters by one record. |
| `EvalRun.CountsAfterRead` | scripts/eval_run.py:129-169 | after n records, both counters hold n under "unlabeled" and 0 under every other label, and each adds up to n. |
| `EvalRun.EvalItem` | scripts/eval_run.py:146-199 | one loop pass advances the run by one item: it writes the item's record and bumps the counters, or flags the failure. |
| `EvalRun.RunEval` | scripts/eval_run.py:110-217 | returns the `<date>__<sanitised id>.jsonl` log path, the records and the failure position of the run over all items, and counters holding the number of records under "unlabeled". |
| `EvalRun.RunBenchmark` | scripts/eval_run.py:221-233 | a run over the ten benchmark items with five chunks and 400 output tokens logs to the path named after the day and the sanitised run id. Its records and failure position are those of the run over the benchmark. |
| `Pipeline.ReadBack` | scripts/eval_label.py:202-203 | suppose the runner writes each record as `dump(record) + "\n"`, every dump is a JSON object on one line with none of `splitlines()`'s boundaries inside it, and every dump parses back to the record's object. Then `splitlines()` recovers the written lines, the labeling tool drops none of them, and its rows are the records' objects, in the order they were written. |
| `Pipeline.ToRowSkippedIff` | scripts/eval_label.py:227-228 | the labeling tool skips a written record exactly when its answer label is neither "" nor "unlabeled" and its retrieval label is neither "None" nor "unlabeled". |
| `Pipeline.ToRowDisplays` | scripts/eval_label.py:233-243 | the display of a written record cannot raise: its expected answer is a string and its retrieved entries are objects. |
| `Pipeline.TallyRepeated` | scripts/eval_label.py:267-272 | n copies of one value tally to a single entry holding n. |
| `Pipeline.RunRowsPending` | scripts/eval_label.py:227-243 | no record of a benchmark run is skipped by the labeling tool, and none makes its display raise. |
| `Pipeline.FreshLogSummary` | scripts/eval_label.py:266-272 | over a log whose records all carry the placeholders, every counted answer or retrieval label is hashable, and the tally is "unlabeled" once per record. |
| `Pipeline.SummariseRun` | scripts/eval_label.py:266-272 | summarising a benchmark run's log succeeds and reports "unlabeled" for every record, for answers and retrievals alike. |

## Left out

- File I/O is not modelled: `mkdir`, opening the run log for writing (truncation), opening the labeled log for appending, `flush`, and directory listing. Logs are sequences; the run log is returned whole, and the labeled log is the prefix `log0` plus appended rows. Reading a file is the parameter `read`.
- JSON encoding and decoding are not modelled. `json.loads` is the parameter `parse` and `json.dumps` the parameter `dump`. `Pipeline.ReadBack` takes as its precondition that a dumped record opens with `{` and parses back to the record's object.
- Pipeline.ReadBack: assumes every dumped record holds none of `splitlines()`'s line boundaries. `json.dumps(..., ensure_ascii=False)` (eval_run.py:199, eval_label.py:257) escapes `\n` and `\r` but writes U+0085, U+2028 and U+2029 raw. An answer, snippet or note holding one of them is read back as two pieces, and `json.loads` then raises on both (`Text.SplitAtLineSeparator`). The labeled log the summary reads back (eval_label.py:266) is taken to be the appended rows themselves, under the same assumption. A line that does not parse (which raises in the code) and a line that parses to something other than an object are not modelled.
- Printing is not modelled: the prompts, the record display, the progress lines, the runner's summary print (which shows `len(EVAL_ITEMS)` as the total) and the labeling summary print. The counters the prints read are modelled, and so is the display raising (`DisplayRaises`). Two display-only defects are not modelled: the "Answer:" block shows the expected answer, and the snippet lookup uses the key `'snippet' < ''`, which is `False`.
- argparse is not modelled: `--in`, `--out`, `--limit` and `--start` are plain parameters.
- Clocks and latency are parameters indexed by item position or by label number: `datetime.now`, `time.perf_counter` and `_utc_iso_now`. The run id is a parameter of the run, and the latency is a real number rather than a float.
- `answer()` is the parameter `ask`, indexed by item position, so equal queries need not get equal results. `None` stands for it raising, which ends the run with the records written so far. The payload is reduced to its "answer" value and its "sources" list of objects. A payload that is not a dict, or sources that are not a list of dicts, are not modelled.
- `_prompt_free` is folded into `CollectLabels` as one stripped input line.
- `_latest_jsonl` gets the listing as a list of (path, mtime) pairs; globbing and `stat` are not modelled.
- `Text.Lower` maps only ASCII capitals and the Kelvin sign. Other characters whose lower case differs, and characters that lower-case to more than one character, are not modelled. None of the choice lists contains such a letter.
- `EvalLabel.Count` treats JSON values as dict keys by structural equality. Python would also merge `1`, `1.0` and `True` into one key; that is not modelled.
- EvalRun.RunBenchmark: ties its records to the run over the benchmark, but does not prove that the ten benchmark queries neither start nor end with whitespace. The verifier does not evaluate the characters of the long string constants. `TrimmedRecords` states what the run writes once they do: every item, in order.
- The interrupted session's `finally: out_f.close()` is covered only by the guarantee that the output log keeps every row appended before the exception.
