# CauSciBench baselines and result compilation, in Dafny

This project models the core of the CauSciBench baselines. CauSciBench is a
benchmark for causal inference by language models, and the core has three
parts.

- **The baseline** (`baselines/baseline.py`). A chatbot is asked a causal
  query through a query format. The python block of each reply is run on a
  code runner, and the output goes back to the chatbot for analysis. This
  repeats up to `max_retries` times. A final JSON summary is then requested
  and recovered from the reply (`get_final_result`). The model also covers
  the guard methods, which refuse to work outside a persistent session.
- **The driver** (`baselines/run_baselines.py`):
  - it chooses the chatbot and the query format;
  - it opens and closes a persistent session around each query;
  - it turns every query into exactly one record, `"success"` or `"error"`;
  - it rewrites dataset paths under the data type's base path;
  - it numbers the workers and clamps the worker count;
  - it splits the records by status.
- **The compiler of results** (`compile_results.py`):
  - `standardize_method_name` is an ordered keyword classifier;
  - `analyze_results` tabulates a run file row by row and logs the effects
    that do not convert to a number;
  - `main` files each `.json` run under the source, prompt and model named
    by its file name.

Modules:

- `Common`: `Option`, `Result`, and the JSON-like `Value` that flows through
  the Python dictionaries.
- `Text`: the Python `str` operations used: `find`, `rfind`, slicing,
  `strip`, `split`, `join`, `lower` (ASCII), `rstrip` with a character set,
  and `endswith`.
- `CodeBlocks`: `find_code`.
- `JsonRecovery`: the recovery steps of `get_final_result`.
- `Collaborators`: the chatbot and the code runner, as classes. Their state
  is the conversation history and the list of requests served. Their
  answers are a fixed function of that state.
- `Baselines`: the `Baseline` class and the specification of `answer`.
- `MethodNames`: `standardize_method_name`.
- `CompileResults`: `analyze_results` and `main` of `compile_results.py`.
- `RunBaselines`: `process_single_query` and `main` of `run_baselines.py`.

The stateful parts are modelled as imperative Dafny:

- the `Baseline` object and its two collaborators;
- the loops of `answer`, `analyze_results`, `main` and the recovery steps;
- the in-place rewrite of the query list.

Each method is proved equal to a specification function. The lemmas state
what the functions promise.

Some specification functions take a callee as a parameter: `codeOf`,
`standardize`, `nameParts`, `analyze`, `answer` and `recover`. This keeps
the callee's body out of proofs that do not need it. The methods that model
the source's operations fix each one in their `ensures`:

- `Baseline.Answer`: `PythonCode` and `RecoverWith(loads)`;
- `AnalyzeResults`: `StandardizeMethodName`;
- `Compile`: `FileNameParts` and `Analyzer(parse, StandardizeMethodName)`;
- `ProcessSingleQuery` and `Run`: `AnswerOf(env)`.

`Baseline.RunWhileCode` is the loop inside `answer` and takes `codeOf`;
`Answer` passes it `PythonCode`.

Where the repository's design description and its code differ, the model
follows the code. The design asks that a persistent session be stopped on
every exit path. In the code, the exception handler's cleanup is guarded by
`'scientist' in locals()`, which never holds, so a query that fails after
the session started leaves the session running (`RunBaselines.StopIff`).

The end of the driver's `main` prints statistics before it saves the
results, and two of its lines can raise, so that nothing is saved. With no
queries, the average time per query divides by zero. A failed record is
printed through its `"query"` field, and the record of a query without that
field is a failed record that lacks it. `RunBaselines.Run` returns these as
failures (`RunBaselines.ReportOfIff`, `RunBaselines.UnnamedQueryLosesReport`).

## Model

| member | source | states |
|---|---|---|
| CodeBlocks.FindCodeMeaning | baselines/baseline.py:18-30 | `find_code` searches the tail after the tag for the closing fence. This gives the same code as the text between the first opening tag and the first fence at or after tag + 9 in the whole reply. `None` is returned when either is missing. |
| CodeBlocks.CodeAfterTagMeaning | baselines/baseline.py:24-30 | The same agreement, once the opening tag is at a given position (or absent). |
| CodeBlocks.CodeAfter | baselines/baseline.py:25-29 | `reply[start:].find("```")` fails exactly when `reply.find("```", start)` fails. Otherwise, shifted by `start`, it cuts out the same slice. |
| CodeBlocks.FoundCodeHasNoFence | baselines/baseline.py:21-29 | Found code holds no fence, and it ends right where a fence starts in the reply. |
| CodeBlocks.FirstBlockHonoured | baselines/baseline.py:18-30 | Take a reply of prose, a fenced block tagged with the language, and anything after. The result is the block's body minus the first `9 - (3 + len(language))` characters, because the skip is always `len("```python")`. |
| CodeBlocks.CodeFromBounds | baselines/baseline.py:21-29 | Given the tag position and the closing fence position, the result is the text between them. |
| CodeBlocks.NoTagNoCode | baselines/baseline.py:21-23 | A reply without the opening tag yields `None`. |
| CodeBlocks.UnclosedNoCode | baselines/baseline.py:25-27 | A block that is opened but never closed yields `None`. |
| JsonRecovery.RecoverJson | baselines/baseline.py:70-103 | The method that reassigns `json_reply` step by step returns exactly `Recover`. That is the decoder's value, or an error record with the cleaned text. |
| JsonRecovery.SliceFence | baselines/baseline.py:72-81 | It computes the fence step: a `json` fence is preferred over a bare one, and an unclosed fence leaves the reply as it is. |
| JsonRecovery.RemoveComments | baselines/baseline.py:84-90 | The line loop computes `StripComments`. |
| JsonRecovery.CutCommentFacts | baselines/baseline.py:87-88 | A cut line holds no `//`. It is a prefix of the line, and it is the line itself when the line had no `//`. |
| JsonRecovery.StripCommentsLines | baselines/baseline.py:84-90 | After comment removal the text has as many lines as before. Each line is a prefix of the old one and holds no `//`. |
| JsonRecovery.StripCommentsFree | baselines/baseline.py:84-90 | The cleaned text holds no `//` anywhere, including across lines. |
| JsonRecovery.StripCommentsNoComment | baselines/baseline.py:84-90 | Text without `//` comes back unchanged, so `split`/`join` round-trips. |
| JsonRecovery.StripCommentsIdempotent | baselines/baseline.py:84-90 | Comment removal is idempotent. |
| JsonRecovery.NoCommentInJoin | baselines/baseline.py:90 | Joining comment-free lines with newlines creates no `//`. |
| JsonRecovery.BraceSliceFound | baselines/baseline.py:93-95 | A candidate object exists exactly when the text holds both a `{` and a `}`. |
| JsonRecovery.BraceSliceShape | baselines/baseline.py:93-96 | The candidate runs from `{` to `}` when the first `{` precedes the last `}`. It is empty when they are the other way round, and it has no `//` when the text has none. |
| JsonRecovery.ErrorRecordContents | baselines/baseline.py:92-103 | An error record carries the cleaned text. Without braces it is the not-found record. With braces, the decoder's success gives its value and its failure gives the decode-failed record with the message. |
| JsonRecovery.DecoderInput | baselines/baseline.py:83-97 | What reaches `json.loads` is brace-delimited (or empty) and free of `//`. |
| JsonRecovery.RecoverFencedObject | baselines/baseline.py:68-97 | Take prose, then a `json` fence around a padded object, then anything. Recovery hands exactly the object to the decoder. |
| JsonRecovery.CutAnnotated | baselines/baseline.py:87-88 | A line of code followed by `//` and a comment is cut back to the code. |
| JsonRecovery.StripCommentsAnnotated | baselines/baseline.py:84-90 | Lines of code, some followed by `//` comments, lose exactly their comments: the result is the code lines joined. |
| JsonRecovery.RecoverCommentedObject | baselines/baseline.py:68-103 | Take prose, then a `json` fence around a padded object written line by line with `//` comments after some lines, then anything. Recovery hands exactly the object without its comments to the decoder, and returns its value or the decode-failed record. |
| JsonRecovery.JsonFenceInterior | baselines/baseline.py:72-76 | The fence step returns the stripped interior of the first `json` fence. |
| JsonRecovery.ObjectBraces | baselines/baseline.py:93-96 | A text that starts with `{` and ends with `}` is its own candidate. |
| JsonRecovery.ProseOnlyIsError | baselines/baseline.py:93-100 | A reply with no fence, no comment and no `{` gives the not-found record with the reply as the raw response. |
| Common.NonNeg | baselines/baseline.py:226 | `max(0, n)` is the least non-negative number at or above `n`. |
| Collaborators.Chatbot.DeleteHistory | baselines/baseline.py:172 | The conversation history is emptied. |
| Collaborators.Chatbot.Ask | baselines/baseline.py:187 | The reply is the chatbot's answer to the history and prompt, and the exchange is appended to the history. |
| Collaborators.CodeRunner.RunCode | baselines/baseline.py:201 | The output is the runner's output for the code after the earlier requests, and the run is appended to the requests. |
| Collaborators.CodeRunner.Serve | baselines/baseline.py:111 | Any other request is answered from the earlier requests and appended. |
| Baselines.Runs | baselines/baseline.py:201 | One `run_code` request per code, in order. |
| Baselines.Analyses | baselines/baseline.py:205 | One analysis prompt per code output, in order. |
| Baselines.RetryCounts | baselines/baseline.py:194-202 | The loop has as many codes as outputs and as exchanges, at most `n`. |
| Baselines.RetryPrompts | baselines/baseline.py:204-207 | The loop's prompts are the analysis prompts of its outputs. |
| Baselines.RetryCoherent | baselines/baseline.py:194-208 | Every reply in the loop is the chatbot's answer to the conversation before it. |
| Baselines.RetryExecuted | baselines/baseline.py:199-202 | Every output is the runner's output for its code after the requests before it. |
| Baselines.RetryCodes | baselines/baseline.py:194-197 | Code k was found in the reply current before iteration k. When the loop stops early, the last reply has no python block. |
| Baselines.AskAllShape | baselines/baseline.py:183-188 | Asking a list of prompts records them in order and leaves the last reply current. |
| Baselines.AskAllCoherent | baselines/baseline.py:183-188 | Each of those replies answers the conversation before it. |
| Baselines.AnswerBookkeeping | baselines/baseline.py:190-227 | The run carries the query and has equally many codes and outputs, at most `max(0, max_retries)`. `retries` is `max(0, len(codes) - 1)`. The runner served exactly the runs of the codes, and every output is the runner's output for its code. |
| Baselines.AnswerConversation | baselines/baseline.py:172-227 | The history starts empty. Its prompts are the pre queries, the analysis prompts, the post queries (only with `post_steps`) and the final prompt. Each reply answers the conversation before it. The final result is recovered from the last reply. |
| Baselines.AnswerCodesFromReplies | baselines/baseline.py:180-197 | Code k was found in the reply current after the pre queries and k loop exchanges. A loop that stopped early saw a reply without a block. |
| Baselines.AnswerStages | baselines/baseline.py:180-215 | The history is the pre exchanges, then the loop's exchanges, then the rest. The codes are the loop's codes. |
| Baselines.LoopReplies | baselines/baseline.py:193-197 | The loop's code-finding facts, restated on the whole history. |
| Baselines.Baseline.constructor | baselines/baseline.py:36-42 | The baseline holds its chatbot, runner, `persistent` flag and `max_retries`. |
| Baselines.Baseline.Answer | baselines/baseline.py:169-227 | The method returns `AnswerSpec` for the chatbot's and runner's behaviour. It leaves the chatbot's history equal to the run's chat history and the runner's requests equal to the old ones plus the runs of the codes. |
| Baselines.Baseline.RunWhileCode | baselines/baseline.py:193-208 | The `for` loop computes `Retry`: codes, outputs, the last reply, the history extended by the loop's exchanges, and the requests extended by the runs. |
| Baselines.Baseline.AskInTurn | baselines/baseline.py:183-188 | The prompt loops compute `AskAll` and extend the history by its exchanges. |
| Baselines.Baseline.GetFinalResult | baselines/baseline.py:44-103 | One exchange with the final prompt is appended, and the result is the recovery of its reply. |
| Baselines.Baseline.GetVariableValue | baselines/baseline.py:105-111 | Outside persistent mode: the error string, and the runner is untouched. Otherwise the runner's answer, and the request is appended. |
| Baselines.Baseline.GetDefinedVariables | baselines/baseline.py:113-119 | The same guard for `get_defined_variables`. |
| Baselines.Baseline.StartPersistentSession | baselines/baseline.py:121-127 | The same guard for starting the container. |
| Baselines.Baseline.StopPersistentSession | baselines/baseline.py:129-135 | The same guard for stopping the container. |
| Baselines.Baseline.IsSessionActive | baselines/baseline.py:137-143 | Outside persistent mode `False`. Otherwise the runner's answer. |
| Baselines.Baseline.UploadFile | baselines/baseline.py:145-151 | The same guard for uploads, with the container path passed through. |
| Baselines.Baseline.DownloadFile | baselines/baseline.py:153-159 | The same guard for downloads. |
| Baselines.Baseline.ListFiles | baselines/baseline.py:161-167 | The same guard for listing a directory. |
| MethodNames.AnyInIff | compile_results.py:49-65 | A chain of `k in s or ...` holds exactly when some keyword occurs in `s`. |
| MethodNames.ClassifyFirstMatch | compile_results.py:49-66 | The first branch one of whose keywords occurs decides the label. |
| MethodNames.ClassifyNoMatch | compile_results.py:67-68 | When no branch matches, the label is `other`. |
| MethodNames.FirstMatchOrNone | compile_results.py:49-68 | Either some branch is the first to match or none matches. |
| MethodNames.ClassifyIff | compile_results.py:49-68 | The chain gives `l` exactly when the first matching branch gives `l`, or when no branch matches and `l` is `other`. |
| MethodNames.ClassifyGives | compile_results.py:49-68 | A label given by one branch only is returned exactly when that branch is the first to match. |
| MethodNames.ClassifyGivesTwo | compile_results.py:49-68 | A label given by two branches is returned exactly when one of them is the first to match. |
| MethodNames.ClassifyOther | compile_results.py:67-68 | `other` is returned exactly when no branch matches. |
| MethodNames.NonStringIsNaN | compile_results.py:43-46 | `None` and every non-string give NaN. |
| MethodNames.CaseInsensitive | compile_results.py:47 | Names equal up to ASCII case get the same label. |
| MethodNames.LowerFirst | compile_results.py:47 | Lower-casing a name first does not change its label. |
| MethodNames.WeightingWins | compile_results.py:49-50 | A name mentioning weighting, ipw or propensity is `ps`, whatever else it mentions. |
| MethodNames.PsIff | compile_results.py:49-58 | `ps` exactly when the first branch matches, or the matching/observational branch is the first to match. |
| MethodNames.NaNIff | compile_results.py:43-68 | A string gives NaN exactly when the null/na/n/a/none branch is the first to match. |
| MethodNames.OtherIff | compile_results.py:67-68 | A string gives `other` exactly when no branch matches. |
| CompileResults.Field | compile_results.py:99-103 | `result[key]` succeeds exactly when the record is a dictionary holding the key, and then gives its value. |
| CompileResults.AnalyzeResults | compile_results.py:71-155 | The loop over the records, with its exceptions, computes `AnalyzeSpec`. |
| CompileResults.AnalyzeTable | compile_results.py:92-155 | The analysis succeeds exactly when every record reads as a row. Then: one row per record; every column entry is the row's value (labels standardized); the error log lists exactly the rows whose effect does not convert, in increasing order, with query, raw effect and message; each mapping key maps to the one label of that key. |
| CompileResults.AnalyzeReadsRows | compile_results.py:98-140 | The loop fails exactly when reading the rows fails, with the same exception. Otherwise its state tabulates the rows. |
| CompileResults.ColumnsStep | compile_results.py:116-124 | Adding a row extends every column by that row's entry. |
| CompileResults.ErrorsStep | compile_results.py:130-140 | Adding a row keeps the error log exact: the new row is logged, under its query number, exactly when its effect does not convert. |
| CompileResults.AddLabelKeeps | compile_results.py:113-127 | Appending a key's own label keeps every key listing only its own label. |
| CompileResults.AddRowTabulates | compile_results.py:98-140 | One iteration keeps the state a tabulation of the rows seen so far. |
| CompileResults.SingletonSets | compile_results.py:146-151 | After `list(set(...))` every key maps to the single label of that key. |
| CompileResults.RowsCount | compile_results.py:98 | Reading succeeds with one row per record. |
| CompileResults.RowsFromRecords | compile_results.py:98-112 | Row k is record k read with the previous row's predicted results to fall back on. |
| CompileResults.StaleReuse | compile_results.py:104-111 | A record whose `result` is not a dictionary reuses the previous record's predicted results, and it cannot be the first record. |
| CompileResults.FailureSticks | compile_results.py:98-103 | Once a record raises, the later records do not change the outcome. |
| CompileResults.SplitThree | compile_results.py:208 | Three underscore-free parts joined by `_` split back into those parts. |
| CompileResults.FileNamePartsRoundTrip | compile_results.py:208-211 | With `.json` removed as a suffix, `source_prompt_model.json` gives back exactly its three parts. |
| CompileResults.AsWrittenStripsModel | compile_results.py:208-211 | As written, the model part loses every trailing character from `{., j, s, o, n}`. |
| CompileResults.Gpt4oMisread | compile_results.py:208-211 | `x_y_gpt4o.json` gives model `gpt4` as written and `gpt4o` when read as intended. |
| CompileResults.CompileFailureSticks | compile_results.py:202-221 | Once a file raises, the later files do not change the outcome. |
| CompileResults.Compile | compile_results.py:202-221 | The loop over the folder computes `CompileSpec`, using the intended name split and `analyze_results`. |
| CompileResults.NestKeeps | compile_results.py:212-220 | Filing an analysis under three keys stores it there and leaves every other entry unchanged. |
| CompileResults.CompileFails | compile_results.py:202-221 | Compilation fails exactly when some `.json` file has too few name parts or fails to analyse. |
| CompileResults.CompileErrors | compile_results.py:218-219 | The error table has exactly the `.json` files as keys, each with its own analysis' error log. |
| CompileResults.CompileFiles | compile_results.py:202-220 | Every `.json` file is filed under its name parts. The last file with those parts wins. |
| CompileResults.CompileOnlyFiles | compile_results.py:202-220 | Every filed entry comes from some `.json` file with those name parts. |
| CompileResults.Gpt4oFiledAsGpt4 | compile_results.py:208-220 | As written, `x_y_gpt4o.json` is filed under `gpt4`. The corrected reading files it under `gpt4o`. |
| RunBaselines.ChatbotForIff | baselines/run_baselines.py:27-44 | A chatbot is created exactly when an RPC address is given or the API is one of the five known. `local` raises its not-implemented message and any other name the invalid-API message. |
| RunBaselines.FormatPrecedence | baselines/run_baselines.py:84-91 | `chain` overrides `react`, which overrides `potm`. With no flag the format is `CausalQueryFormat`, and the converse of each case holds. |
| RunBaselines.AnswerOfAppendsRuns | baselines/run_baselines.py:96 | `answer` only appends the runs of its codes to the runner's requests. |
| RunBaselines.ProcessSingleQuery | baselines/run_baselines.py:23-128 | The method returns `ProcessSpec`: the record, and the requests its code runner served. |
| RunBaselines.SessionOfIn | baselines/run_baselines.py:54-101 | The session requests are exactly the requests that are not code runs. |
| RunBaselines.SessionRequests | baselines/run_baselines.py:50-120 | The session requests of a query are, in order: the start (if persistent), the upload (in persistent mode when the file exists), and the stop (in persistent mode on success). None are made when the chatbot cannot be built. |
| RunBaselines.OneRecord | baselines/run_baselines.py:104-128 | Every query yields one record with the query's fields and the worker id. It is an error exactly when the chatbot cannot be built or a field is missing. |
| RunBaselines.StopIff | baselines/run_baselines.py:99-120 | The session is stopped exactly when the query succeeded in persistent mode. A started session is left running on error, because the handler tests for a name that is never bound. |
| RunBaselines.FallbackKeepsChatbotMode | baselines/run_baselines.py:34-67 | When the container fails to start, the driver falls back to one-off mode. The API chatbot keeps `persistent_mode` true. |
| RunBaselines.ClampWorkers | baselines/run_baselines.py:296-299 | A worker count below 1 becomes 1, and any other is kept. |
| RunBaselines.WorkerIdRoundRobin | baselines/run_baselines.py:209-226 | Query i goes to worker `i % num_workers` (0 in sequential mode), below `num_workers`. |
| RunBaselines.RunQueries | baselines/run_baselines.py:209-231 | There is one record per query, in query order. Each is `process_single_query` with the query's worker id. |
| RunBaselines.PartitionByStatus | baselines/run_baselines.py:237-238 | The successful and failed lists hold only records of that status. Together they are a permutation of all records. |
| RunBaselines.StatusOnly | baselines/run_baselines.py:237-238 | Each list holds only records of its status. |
| RunBaselines.StatusCounts | baselines/run_baselines.py:237-238 | The two lists together are a permutation of the records. |
| RunBaselines.BasenameNoSlash | baselines/run_baselines.py:195 | The basename holds no `/` and is a suffix of the path. |
| RunBaselines.BasenameAfterSlash | baselines/run_baselines.py:195 | The basename of `dir/name` is `name`. |
| RunBaselines.RewriteKeepsName | baselines/run_baselines.py:194-196 | The rewritten path is the base path, `/`, then the basename. The rewrite keeps the basename and is idempotent. |
| RunBaselines.RewriteAll | baselines/run_baselines.py:194-196 | Every query gets `dataset_path` set to its rewrite. Nothing else changes. |
| RunBaselines.RewritePaths | baselines/run_baselines.py:194-196 | The in-place loop succeeds exactly when every query has `dataset_path`, and then computes `RewriteAll`. Otherwise it raises `KeyError('dataset_path')` at the first query without it, with the earlier queries already rewritten. |
| RunBaselines.RewriteStep | baselines/run_baselines.py:194-196 | Rewriting one more query extends the rewritten prefix by one. |
| RunBaselines.ReportOfIff | baselines/run_baselines.py:237-253 | The results are saved exactly when there is a query and every failed record has a `"query"` field. Otherwise `main` raises: division by zero without queries, `KeyError('query')` otherwise. A saved report holds every record and splits them by status. |
| RunBaselines.UnnamedQueryLosesReport | baselines/run_baselines.py:244-249 | A query without a `"query"` field makes `main` raise `KeyError('query')` before saving, whatever the other queries are. |
| RunBaselines.ReportResults | baselines/run_baselines.py:236-253 | The statistics step returns `ReportOf`: it fails on an empty result list or at the first failed record without `"query"`, and otherwise gives the records split by status. |
| RunBaselines.Run | baselines/run_baselines.py:160-253 | An unknown data type fails with its message and leaves the queries untouched. A query without `dataset_path` fails with `KeyError('dataset_path')`, with the queries before it rewritten. Otherwise every path is rewritten, and the outcome is the report of one record per query, in order, with the clamped worker count and round-robin ids. |

## Left out

- The implementations of the chatbots, the code runner (`CodeRunner`), the
  query-format classes and `json.loads` are not part of this model. Each is
  a function of the conversation or the requests so far.
- The wording of the final-summary prompt is not modelled. `FINAL_PROMPT`
  stands for it.
- Printing (`print_color`, progress messages), `tqdm` progress bars and
  the timing values are left out. The two statistics lines that can raise
  are modelled, as failures of `Run`.
- `multiprocessing` is left out. The parallel path is modelled as running
  the queries in order, since `collect_results_with_progress` collects
  results in submission order.
- Exceptions while collecting a pool result are not modelled.
- pandas is not modelled. `analyze_results` returns its columns as lists,
  and the `DataFrame` built from them is not modelled.
- `combine_dfs`, the per-prompt CSV output and the error summary printed by
  `compile_results.py` are left out. They only re-arrange `main`'s tables.
- `total` in `compile_results.py` is left out: it is assigned but never
  read.
- Reading a file with `json.load` is a parameter (`load`). Malformed JSON
  files are not modelled.
- `create_json.py` and the body of `query_formats.py` are left out. A query
  format is a value giving the stage prompts and the analysis prompt.
- `post_steps` is modelled, but the driver always passes `False`.
- Loading queries from CSV or JSON is left out, along with the column
  renaming, the output-directory creation and writing the output file.
  `Run` takes the queries as loaded.
- The data root is a parameter of `Run`.
- The over-CPU-count warning for `num_workers` is left out: it changes
  nothing.
- `Text.Lower` lower-cases ASCII letters only. Python's Unicode
  lower-casing is not modelled.
- Query fields are modelled as strings. Non-string values in a query file
  are not modelled.
- The record is modelled as the query's fields plus a worker id and a
  status. What happens when a query itself has keys named `result`,
  `worker_id`, `status` or `error` (Python's `{**query_data, ...}` merge
  overrides them) is not modelled.
- Exceptions raised inside the chatbot, the code runner or a query format
  are not modelled. The only errors modelled are those the source raises
  itself: an unknown API, `local`, and a missing query field.
- The `persistent_mode` attribute set on the chatbot after a successful
  start is not modelled. The API chatbots already carry it from
  construction, and the RPC and test chatbots' handling of it is not part
  of this model.
- `session_timeout`, `safe_exec` and `worker_id`, which are passed to the
  code runner, are not modelled: they configure the runner.
- `analyze_results` is modelled with its default keys only.
- In `analyze_results`, a `results_json` that is not a list is not
  modelled, and neither are dictionary keys that Python would merge (such
  as `1` and `True`).
- A run file is a sequence of JSON values.
- Python's `float()` on strings is a parameter (`parse`).
- Several lemmas are stated over a callee parameter (`codeOf`,
  `standardize`, `nameParts`, `analyze`, `answer`, `recover`). They hold
  for every callee, including the fixed one.
- JsonRecovery.RecoverFencedObject and JsonRecovery.RecoverCommentedObject:
  stated for objects without backticks, so that no fence can start inside
  the object. An object holding single backticks is not covered.
- JsonRecovery.RecoverCommentedObject: code lines must not hold `//`, and a
  line followed by a comment must not end with `/`. The cut would otherwise
  fall earlier, as `split` and `find` do in the source.
- RunBaselines.WorkerIdRoundRobin: states the id and its bound, not that
  ids repeat with period `num_workers`.
- The cleanup guard `'scientist' in locals()` in the exception handler of
  `process_single_query` is modelled as written. It never holds, so a
  started persistent session is not stopped when a query fails.

## Findings

| source | as written | input that shows it | evidently intended | confidence | as-written member | corrected member |
|---|---|---|---|---|---|---|
| compile_results.py:208-211 | `files.rstrip(".json")` removes every trailing character in the set `{., j, s, o, n}`, not the suffix `.json` | `x_y_gpt4o.json`: the model part becomes `gpt4`, so the run is filed under another model | remove the `.json` suffix that line 203 checked for, then split on `_` | not executed | CompileResults.FileNamePartsAsWritten (with CompileResults.Gpt4oMisread and CompileResults.Gpt4oFiledAsGpt4) | CompileResults.FileNameParts (with CompileResults.FileNamePartsRoundTrip; used by CompileResults.Compile) |
