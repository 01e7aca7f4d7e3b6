/** The driver that runs a baseline over every query of a benchmark: how it
    chooses the chatbot and the query format, opens and closes a persistent
    session around each query, turns every query into exactly one record,
    numbers the workers and rewrites the dataset paths. */
module RunBaselines {
  import opened Common
  import opened Text
  import opened Collaborators
  import opened JsonRecovery
  import opened Baselines

  /** A query as the queries file gives it: its fields by name. */
  type Query = map<string, string>

  /** The command-line arguments the driver reads. `rpcAddress` is `None`
      when `--rpc-address` is not given. */
  datatype Args = Args(rpcAddress: Option<string>, api: string, model: string, persistent: bool,
                       potm: bool, react: bool, chain: bool, dataType: string, numWorkers: int)

  /** The chatbot classes `process_single_query` can create. The four API
      chatbots take `persistent_mode` at construction. */
  datatype Provider =
    | Rpc(address: string)
    | TestBot
    | Vertex(model: string, persistentMode: bool)
    | Azure(model: string, persistentMode: bool)
    | OpenAI(model: string, persistentMode: bool)
    | Together(model: string, persistentMode: bool)

  /** The query-format classes. */
  datatype Format = CausalQuery | ProgramOfThoughts | ReAct | CausalCoT

  /** What lies outside the driver: how each chatbot answers, how the code
      runner executes and serves, which files exist, what each query-format
      class builds, and `json.loads`. */
  datatype Env = Env(respondOf: Provider -> (seq<Exchange>, string) -> string,
                     execute: (seq<Request>, string) -> string,
                     serve: (seq<Request>, Request) -> Value,
                     fileExists: string -> bool,
                     formats: Format -> (string, string, string) -> QueryFormat,
                     loads: string -> Result<Value, string>)

  /** How a query ended: `"success"` with the analysis, or `"error"` with
      `str(e)`. */
  datatype Status = Succeeded(result: AnalysisRun) | Errored(error: string)

  /** The record returned for a query: the query's own fields, the worker id
      and the status. */
  datatype Record = Record(data: Query, workerId: nat, status: Status)

  /** `max_retries` of a `Baseline` built with its defaults. */
  const MAX_RETRIES := 3

  /** `str(KeyError(key))`. */
  function KeyMessage(key: string): string {
    "'" + key + "'"
  }

  /** The chatbot selection: a non-empty RPC address wins; otherwise the API
      name picks the class, `"local"` raises `NotImplementedError` and any
      other name `ValueError`. */
  function ChatbotFor(args: Args): Result<Provider, string> {
    if args.rpcAddress.Some? && args.rpcAddress.value != "" then Success(Rpc(args.rpcAddress.value))
    else if args.api == "test" then Success(TestBot)
    else if args.api == "vertex" then Success(Vertex(args.model, args.persistent))
    else if args.api == "azure" then Success(Azure(args.model, args.persistent))
    else if args.api == "openai" then Success(OpenAI(args.model, args.persistent))
    else if args.api == "together" then Success(Together(args.model, args.persistent))
    else if args.api == "local" then Failure("Local chatbot is not implemented yet.")
    else Failure("Invalid API: " + args.api)
  }

  const APIS: set<string> := {"test", "vertex", "azure", "openai", "together"}

  /** A chatbot is created exactly when an RPC address is given or the API
      is one of the five known ones; `"local"` and unknown names fail with
      their own messages. */
  lemma ChatbotForIff(args: Args)
    ensures ChatbotFor(args).Success? <==> (args.rpcAddress.Some? && args.rpcAddress.value != "") || args.api in APIS
    ensures ChatbotFor(args).Failure? && args.api == "local" ==> ChatbotFor(args).error == "Local chatbot is not implemented yet."
    ensures ChatbotFor(args).Failure? && args.api != "local" ==> ChatbotFor(args).error == "Invalid API: " + args.api
  {
  }

  /** The format selection: the default, replaced by each flag in turn. */
  function FormatFor(potm: bool, react: bool, chain: bool): Format {
    var qf := CausalQuery;
    var qf := if potm then ProgramOfThoughts else qf;
    var qf := if react then ReAct else qf;
    if chain then CausalCoT else qf
  }

  /** `chain` overrides `react`, which overrides `potm`; without a flag the
      format is `CausalQueryFormat`. */
  lemma FormatPrecedence(potm: bool, react: bool, chain: bool)
    ensures FormatFor(potm, react, chain) == CausalCoT <==> chain
    ensures FormatFor(potm, react, chain) == ReAct <==> react && !chain
    ensures FormatFor(potm, react, chain) == ProgramOfThoughts <==> potm && !react && !chain
    ensures FormatFor(potm, react, chain) == CausalQuery <==> !potm && !react && !chain
  {
  }

  /** Whether the query runs in persistent mode: `--persistent` was given
      and starting the session answered with a true value. */
  predicate PersistentMode(args: Args, env: Env) {
    args.persistent && Truthy(env.serve([], StartContainer))
  }

  /** The first of the three fields `process_single_query` reads that the
      query lacks. */
  function MissingField(q: Query): Option<string> {
    if "query" !in q then Some("query")
    else if "dataset_path" !in q then Some("dataset_path")
    else if "dataset_description" !in q then Some("dataset_description")
    else None
  }

  /** `answer` with `max_retries` 3 and `post_steps` false, by the chatbot
      of the provider, on a runner that has already served `requests`. */
  function AnswerOf(env: Env): (Provider, seq<Request>, string, QueryFormat) -> Outcome {
    (provider, requests, query, f) =>
      AnswerSpec(env.respondOf(provider), env.execute, PythonCode, MAX_RETRIES, requests, query, f, false, RecoverWith(env.loads))
  }

  /** `answer` only adds the runs of its codes to the runner's requests. */
  ghost predicate AppendsRuns(answer: (Provider, seq<Request>, string, QueryFormat) -> Outcome) {
    forall provider, requests, query, f ::
      answer(provider, requests, query, f).requests == requests + Runs(answer(provider, requests, query, f).run.codes)
  }

  lemma AnswerOfAppendsRuns(env: Env)
    ensures AppendsRuns(AnswerOf(env))
  {
    forall provider, requests, query, f
      ensures AnswerOf(env)(provider, requests, query, f).requests
              == requests + Runs(AnswerOf(env)(provider, requests, query, f).run.codes)
    {
      AnswerBookkeeping(env.respondOf(provider), env.execute, PythonCode, MAX_RETRIES, requests, query, f, false, RecoverWith(env.loads));
    }
  }

  /** `process_single_query` as a function of the arguments, the query, the
      worker id, the environment and `answer` (which is `AnswerOf(env)`):
      the record and the requests the query's code runner served. */
  function ProcessSpec(args: Args, q: Query, workerId: nat, env: Env,
                       answer: (Provider, seq<Request>, string, QueryFormat) -> Outcome): (Record, seq<Request>)
  {
    match ChatbotFor(args)
    case Failure(msg) => (Record(q, workerId, Errored(msg)), [])
    case Success(provider) =>
      var start := if args.persistent then [StartContainer] else [];
      var mode := PersistentMode(args, env);
      match MissingField(q)
      case Some(key) => (Record(q, workerId, Errored(KeyMessage(key))), start)
      case None =>
        var path := q["dataset_path"];
        var upload := if mode && env.fileExists(path) then [Request.UploadFile(path, Some(path))] else [];
        var f := env.formats(FormatFor(args.potm, args.react, args.chain))(q["query"], path, q["dataset_description"]);
        var o := answer(provider, start + upload, q["query"], f);
        var stop := if mode then [StopContainer] else [];
        (Record(q, workerId, Succeeded(o.run)), o.requests + stop)
  }

  /** `process_single_query(query_data, args, worker_id)`: builds the
      chatbot, the baseline and its code runner, runs the query inside a
      persistent session when asked to, and turns the outcome into a record.
      Also returns the requests the code runner served. */
  method ProcessSingleQuery(args: Args, q: Query, workerId: nat, env: Env) returns (record: Record, requests: seq<Request>)
    ensures (record, requests) == ProcessSpec(args, q, workerId, env, AnswerOf(env))
  {
    var provider := ChatbotFor(args);
    if provider.Failure? {
      return Record(q, workerId, Errored(provider.error)), [];
    }
    var chatbot := new Chatbot(env.respondOf(provider.value));
    var runner := new CodeRunner(env.execute, env.serve);
    var model := new Baseline(chatbot, runner, args.persistent, MAX_RETRIES);
    var persistentMode := args.persistent;
    if args.persistent {
      var started := model.StartPersistentSession();
      // Setting the chatbot's `persistent_mode` here changes nothing for
      // the API chatbots, built with `persistent_mode=args.persistent`.
      if Truthy(started) {
        persistentMode := true;
      } else {
        persistentMode := false;
      }
    }
    assert runner.requests == (if args.persistent then [StartContainer] else []);
    assert persistentMode == PersistentMode(args, env);
    var missing := MissingField(q);
    if missing.Some? {
      // The cleanup guard of the handler tests for a name that is never
      // bound, so the session is left running.
      return Record(q, workerId, Errored(KeyMessage(missing.value))), runner.requests;
    }
    var query, datasetPath, description := q["query"], q["dataset_path"], q["dataset_description"];
    if persistentMode && env.fileExists(datasetPath) {
      var uploaded := model.UploadFile(datasetPath, Some(datasetPath));
    }
    var qf := FormatFor(args.potm, args.react, args.chain);
    ghost var before := runner.requests;
    ghost var f := env.formats(qf)(query, datasetPath, description);
    var run := model.Answer(query, datasetPath, description, env.formats(qf), false, env.loads);
    ghost var o := AnswerOf(env)(provider.value, before, query, f);
    assert run == o.run && runner.requests == o.requests;
    if persistentMode {
      var stopped := model.StopPersistentSession();
    }
    record := Record(q, workerId, Succeeded(run));
    requests := runner.requests;
    assert before == (if args.persistent then [StartContainer] else [])
                     + (if persistentMode && env.fileExists(datasetPath) then [Request.UploadFile(datasetPath, Some(datasetPath))] else []);
    assert requests == o.requests + (if persistentMode then [StopContainer] else []);
    SuccessSpec(args, q, workerId, env, AnswerOf(env));
  }

  /** `ProcessSpec` on the path where the chatbot exists and no field is
      missing. */
  lemma SuccessSpec(args: Args, q: Query, workerId: nat, env: Env,
                    answer: (Provider, seq<Request>, string, QueryFormat) -> Outcome)
    requires ChatbotFor(args).Success? && MissingField(q).None?
    ensures var mode := PersistentMode(args, env);
            var path := q["dataset_path"];
            var o := answer(ChatbotFor(args).value,
                            (if args.persistent then [StartContainer] else [])
                            + (if mode && env.fileExists(path) then [Request.UploadFile(path, Some(path))] else []),
                            q["query"], env.formats(FormatFor(args.potm, args.react, args.chain))(q["query"], path, q["dataset_description"]));
            ProcessSpec(args, q, workerId, env, answer)
            == (Record(q, workerId, Succeeded(o.run)), o.requests + (if mode then [StopContainer] else []))
  {
  }

  /** The session requests among `requests`: all but the code runs. */
  function SessionOf(requests: seq<Request>): seq<Request>
    decreases |requests|
  {
    if requests == [] then []
    else (if requests[0].RunCode? then [] else [requests[0]]) + SessionOf(requests[1..])
  }

  /** `SessionOf` keeps exactly the requests that are not code runs. */
  lemma {:induction false} SessionOfIn(requests: seq<Request>, r: Request)
    ensures r in SessionOf(requests) <==> r in requests && !r.RunCode?
    decreases |requests|
  {
    if requests != [] {
      SessionOfIn(requests[1..], r);
      assert requests == [requests[0]] + requests[1..];
    }
  }

  lemma {:induction false} SessionOfAppend(a: seq<Request>, b: seq<Request>)
    ensures SessionOf(a + b) == SessionOf(a) + SessionOf(b)
    decreases |a|
  {
    if a == [] {
      assert a + b == b;
    } else {
      assert (a + b)[1..] == a[1..] + b;
      SessionOfAppend(a[1..], b);
    }
  }

  lemma {:induction false} SessionOfRuns(codes: seq<string>)
    ensures SessionOf(Runs(codes)) == []
    decreases |codes|
  {
    if codes != [] {
      assert Runs(codes)[1..] == Runs(codes[1..]);
      SessionOfRuns(codes[1..]);
    }
  }

  /** The session requests of a query, in order: none when no chatbot could
      be created; the start alone when a field is missing, since the error
      path never stops the session; otherwise the start when asked for, the
      upload when in persistent mode and the file exists, and the stop
      exactly when in persistent mode. */
  lemma SessionRequests(args: Args, q: Query, workerId: nat, env: Env,
                        answer: (Provider, seq<Request>, string, QueryFormat) -> Outcome)
    requires AppendsRuns(answer)
    ensures var (record, requests) := ProcessSpec(args, q, workerId, env, answer);
            var start := if args.persistent then [StartContainer] else [];
            SessionOf(requests)
            == if ChatbotFor(args).Failure? then []
               else if MissingField(q).Some? then start
               else
                 var path := q["dataset_path"];
                 start
                 + (if PersistentMode(args, env) && env.fileExists(path) then [Request.UploadFile(path, Some(path))] else [])
                 + (if PersistentMode(args, env) then [StopContainer] else [])
  {
    if ChatbotFor(args).Success? && MissingField(q).None? {
      var start := if args.persistent then [StartContainer] else [];
      var path := q["dataset_path"];
      var upload := if PersistentMode(args, env) && env.fileExists(path) then [Request.UploadFile(path, Some(path))] else [];
      var stop := if PersistentMode(args, env) then [StopContainer] else [];
      var f := env.formats(FormatFor(args.potm, args.react, args.chain))(q["query"], path, q["dataset_description"]);
      var o := answer(ChatbotFor(args).value, start + upload, q["query"], f);
      SuccessSpec(args, q, workerId, env, answer);
      assert o.requests == start + upload + Runs(o.run.codes);
      SessionOfParts(start + upload, o.run.codes);
      SessionOfAppend(start + upload + Runs(o.run.codes), stop);
      SessionOfAppend(start, upload);
      assert SessionOf(start) == start && SessionOf(upload) == upload && SessionOf(stop) == stop;
    } else if ChatbotFor(args).Success? && args.persistent {
      assert SessionOf([StartContainer]) == [StartContainer];
    }
  }

  /** Code runs after session requests drop out of the session. */
  lemma SessionOfParts(before: seq<Request>, codes: seq<string>)
    ensures SessionOf(before + Runs(codes)) == SessionOf(before)
  {
    SessionOfAppend(before, Runs(codes));
    SessionOfRuns(codes);
    assert SessionOf(before) + [] == SessionOf(before);
  }

  /** Every query gives exactly one record, carrying the query's fields and
      its worker id; it is an error record exactly when no chatbot could be
      created or one of the three fields is missing. */
  lemma OneRecord(args: Args, q: Query, workerId: nat, env: Env,
                  answer: (Provider, seq<Request>, string, QueryFormat) -> Outcome)
    ensures var record := ProcessSpec(args, q, workerId, env, answer).0;
            record.data == q && record.workerId == workerId
            && (record.status.Errored? <==> ChatbotFor(args).Failure? || MissingField(q).Some?)
  {
  }

  /** The session is stopped exactly when the query succeeded in persistent
      mode; an error record never comes with a stop, even after a start. */
  lemma StopIff(args: Args, q: Query, workerId: nat, env: Env,
                answer: (Provider, seq<Request>, string, QueryFormat) -> Outcome)
    requires AppendsRuns(answer)
    ensures var (record, requests) := ProcessSpec(args, q, workerId, env, answer);
            StopContainer in requests <==> record.status.Succeeded? && PersistentMode(args, env)
    ensures var (record, requests) := ProcessSpec(args, q, workerId, env, answer);
            record.status.Errored? && ChatbotFor(args).Success? && args.persistent
            ==> StartContainer in requests && StopContainer !in requests
  {
    var (record, requests) := ProcessSpec(args, q, workerId, env, answer);
    SessionRequests(args, q, workerId, env, answer);
    SessionOfIn(requests, StopContainer);
    SessionOfIn(requests, StartContainer);
  }

  /** When starting the session fails, the query runs in one-off mode, but
      an API chatbot keeps the `persistent_mode` it was built with. */
  lemma FallbackKeepsChatbotMode(args: Args, env: Env)
    requires args.persistent && !Truthy(env.serve([], StartContainer))
    requires ChatbotFor(args).Success? && !ChatbotFor(args).value.Rpc? && !ChatbotFor(args).value.TestBot?
    ensures !PersistentMode(args, env) && ChatbotFor(args).value.persistentMode
  {
  }

  /** The check before `main`: fewer than one worker becomes one; more
      workers than CPUs are only warned about. */
  function ClampWorkers(n: int): (r: int)
    ensures r >= 1
    ensures n >= 1 ==> r == n
    ensures n < 1 ==> r == 1
  {
    if n < 1 then 1 else n
  }

  /** The worker id of query `i`: 0 in sequential mode, `i % num_workers`
      in parallel mode. */
  function WorkerId(i: nat, numWorkers: int): nat
    requires numWorkers >= 1
  {
    if numWorkers == 1 then 0 else i % numWorkers
  }

  /** Both modes agree with round-robin numbering, and every id names one
      of the workers. */
  lemma WorkerIdRoundRobin(i: nat, numWorkers: int)
    requires numWorkers >= 1
    ensures WorkerId(i, numWorkers) == i % numWorkers
    ensures WorkerId(i, numWorkers) < numWorkers
    ensures i < numWorkers ==> WorkerId(i, numWorkers) == i
  {
  }

  /** The processing loop of `main`, sequential or parallel: one record per
      query, in the order of the queries (the pool's results are collected
      in submission order, and `process_single_query` never raises). */
  method RunQueries(args: Args, queries: seq<Query>, env: Env) returns (results: seq<Record>)
    requires args.numWorkers >= 1
    ensures |results| == |queries|
    ensures forall k :: 0 <= k < |queries| ==>
              results[k] == ProcessSpec(args, queries[k], WorkerId(k, args.numWorkers), env, AnswerOf(env)).0
  {
    results := [];
    if args.numWorkers == 1 {
      for i := 0 to |queries|
        invariant |results| == i
        invariant forall k :: 0 <= k < i ==>
                    results[k] == ProcessSpec(args, queries[k], WorkerId(k, args.numWorkers), env, AnswerOf(env)).0
      {
        var result, _ := ProcessSingleQuery(args, queries[i], 0, env);
        results := results + [result];
      }
    } else {
      for i := 0 to |queries|
        invariant |results| == i
        invariant forall k :: 0 <= k < i ==>
                    results[k] == ProcessSpec(args, queries[k], WorkerId(k, args.numWorkers), env, AnswerOf(env)).0
      {
        var workerId := i % args.numWorkers;
        var result, _ := ProcessSingleQuery(args, queries[i], workerId, env);
        results := results + [result];
      }
    }
  }

  /** `[r for r in results if r["status"] == "success"]`. */
  function Successful(results: seq<Record>): seq<Record>
    decreases |results|
  {
    if results == [] then []
    else (if results[0].status.Succeeded? then [results[0]] else []) + Successful(results[1..])
  }

  /** `[r for r in results if r["status"] == "error"]`. */
  function Failed(results: seq<Record>): seq<Record>
    decreases |results|
  {
    if results == [] then []
    else (if results[0].status.Errored? then [results[0]] else []) + Failed(results[1..])
  }

  /** The two lists split the results by status: each holds only its own
      status, and together they hold every record exactly once. */
  lemma PartitionByStatus(results: seq<Record>)
    ensures forall r :: r in Successful(results) ==> r in results && r.status.Succeeded?
    ensures forall r :: r in Failed(results) ==> r in results && r.status.Errored?
    ensures multiset(Successful(results)) + multiset(Failed(results)) == multiset(results)
    ensures |Successful(results)| + |Failed(results)| == |results|
  {
    StatusOnly(results);
    StatusCounts(results);
    assert |multiset(Successful(results)) + multiset(Failed(results))| == |multiset(results)|;
  }

  lemma {:induction false} StatusOnly(results: seq<Record>)
    ensures forall r :: r in Successful(results) ==> r in results && r.status.Succeeded?
    ensures forall r :: r in Failed(results) ==> r in results && r.status.Errored?
    decreases |results|
  {
    if results != [] {
      StatusOnly(results[1..]);
      assert results == [results[0]] + results[1..];
    }
  }

  lemma {:induction false} StatusCounts(results: seq<Record>)
    ensures multiset(Successful(results)) + multiset(Failed(results)) == multiset(results)
    decreases |results|
  {
    if results != [] {
      StatusCounts(results[1..]);
      assert results == [results[0]] + results[1..];
    }
  }

  /** `os.path.basename(p)`: what follows the last `/`. */
  function Basename(p: string): string {
    p[RFind(p, "/") + 1..]
  }

  lemma BasenameNoSlash(p: string)
    ensures '/' !in Basename(p)
    ensures p == p[..|p| - |Basename(p)|] + Basename(p)
  {
    RFindSpec(p, "/");
    var i := RFind(p, "/") + 1;
    var b := Basename(p);
    assert b == p[i..];
    forall k | 0 <= k < |b|
      ensures b[k] != '/'
    {
      assert !OccursAt(p, "/", i + k);
      assert p[i + k..i + k + 1] == [p[i + k]];
      assert b[k] == p[i + k];
    }
    assert p == p[..i] + b;
  }

  /** `os.path.join(a, b)` for two parts. */
  function PathJoin(a: string, b: string): string {
    if |b| > 0 && b[0] == '/' then b
    else if a == [] || a[|a| - 1] == '/' then a + b
    else a + "/" + b
  }

  /** The base path of a data type, under the data root: `qrdata` and `real`
      share `all_data`, `synthetic` has `synthetic_data`, and any other type
      raises `ValueError`. */
  function BasePath(dataRoot: string, dataType: string): Result<string, string> {
    if dataType == "qrdata" then Success(PathJoin(dataRoot, "all_data"))
    else if dataType == "real" then Success(PathJoin(dataRoot, "all_data"))
    else if dataType == "synthetic" then Success(PathJoin(dataRoot, "synthetic_data"))
    else Failure("Invalid data type: " + dataType)
  }

  /** The rewritten dataset path: the base path joined with the basename. */
  function Rewrite(base: string, path: string): string {
    PathJoin(base, Basename(path))
  }

  /** The basename of a path that ends in `/` and a name without `/` is
      that name. */
  lemma BasenameAfterSlash(dir: string, name: string)
    requires '/' !in name
    ensures Basename(dir + "/" + name) == name
  {
    var joined := dir + "/" + name;
    var d := |dir|;
    assert OccursAt(joined, "/", d) by {
      assert joined[d..d + 1] == "/";
    }
    forall j | d < j
      ensures !OccursAt(joined, "/", j)
    {
      if j < |joined| {
        assert joined[j] == name[j - d - 1];
        assert joined[j..j + 1][0] == joined[j];
      }
    }
    RFindSpec(joined, "/");
    assert RFind(joined, "/") == d;
    assert joined[d + 1..] == name;
  }

  /** The rewritten path lies directly under the base path, keeps the file
      name, and rewriting it again changes nothing. */
  lemma RewriteKeepsName(base: string, path: string)
    requires base != [] && base[|base| - 1] != '/'
    ensures Rewrite(base, path) == base + "/" + Basename(path)
    ensures Basename(Rewrite(base, path)) == Basename(path)
    ensures Rewrite(base, Rewrite(base, path)) == Rewrite(base, path)
  {
    var name := Basename(path);
    BasenameNoSlash(path);
    if name != [] {
      assert name[0] in name;
    }
    BasenameAfterSlash(base, name);
  }

  /** The path rewriting of `main`, applied to every query. */
  function RewriteAll(queries: seq<Query>, base: string): (r: seq<Query>)
    requires forall k :: 0 <= k < |queries| ==> "dataset_path" in queries[k]
    ensures |r| == |queries|
    ensures forall k :: 0 <= k < |queries| ==>
              r[k] == queries[k]["dataset_path" := Rewrite(base, queries[k]["dataset_path"])]
  {
    seq(|queries|, k requires 0 <= k < |queries| => queries[k]["dataset_path" := Rewrite(base, queries[k]["dataset_path"])])
  }

  /** The loop `for q in queries: q['dataset_path'] = ...`, which updates
      each query in place; a query without `dataset_path` raises `KeyError`
      and leaves the later queries as they were. */
  method RewritePaths(queries: array<Query>, base: string) returns (r: Result<(), string>)
    modifies queries
    ensures r.Success? <==> forall k :: 0 <= k < queries.Length ==> "dataset_path" in old(queries[k])
    ensures r.Success? ==> queries[..] == RewriteAll(old(queries[..]), base)
    ensures r.Failure? ==> r.error == KeyMessage("dataset_path")
    ensures r.Failure? ==> exists k :: RewrittenUpTo(old(queries[..]), queries[..], base, k)
  {
    ghost var orig := queries[..];
    for i := 0 to queries.Length
      invariant forall k :: 0 <= k < i ==> "dataset_path" in orig[k]
      invariant queries[..] == RewriteAll(orig[..i], base) + orig[i..]
    {
      if "dataset_path" !in queries[i] {
        assert queries[i] == orig[i];
        assert RewrittenUpTo(orig, queries[..], base, i);
        return Failure(KeyMessage("dataset_path"));
      }
      ghost var current := queries[..];
      queries[i] := queries[i]["dataset_path" := Rewrite(base, queries[i]["dataset_path"])];
      assert queries[..] == current[i := queries[i]];
      RewriteStep(orig, base, i);
    }
    assert orig[..queries.Length] == orig;
    r := Success(());
  }

  /** Rewriting query `i` extends the rewritten prefix by one. */
  lemma RewriteStep(qs: seq<Query>, base: string, i: nat)
    requires i < |qs| && forall k :: 0 <= k <= i ==> "dataset_path" in qs[k]
    ensures (RewriteAll(qs[..i], base) + qs[i..])[i := qs[i]["dataset_path" := Rewrite(base, qs[i]["dataset_path"])]]
            == RewriteAll(qs[..i + 1], base) + qs[i + 1..]
  {
    var a := (RewriteAll(qs[..i], base) + qs[i..])[i := qs[i]["dataset_path" := Rewrite(base, qs[i]["dataset_path"])]];
    var b := RewriteAll(qs[..i + 1], base) + qs[i + 1..];
    assert |a| == |b|;
    forall k | 0 <= k < |a|
      ensures a[k] == b[k]
    {
      if k < i {
        assert qs[..i][k] == qs[..i + 1][k];
      }
    }
  }

  /** The loop stopped at query `k`, the first without `dataset_path`: the
      queries before it are rewritten, it and the later ones are untouched. */
  ghost predicate RewrittenUpTo(before: seq<Query>, after: seq<Query>, base: string, k: int) {
    && 0 <= k < |before|
    && "dataset_path" !in before[k]
    && (forall j :: 0 <= j < k ==> "dataset_path" in before[j])
    && after == RewriteAll(before[..k], base) + before[k..]
  }

  /** What `main` reports and saves: every record, and the successful and
      failed ones. */
  datatype Report = Report(results: seq<Record>, successful: seq<Record>, failed: seq<Record>)

  /** `str(ZeroDivisionError)` of `total_time/len(queries)`. */
  const ZERO_DIVISION := "float division by zero"

  /** The records `main` collects: query `k` processed by worker
      `WorkerId(k, num_workers)`. */
  function Records(args: Args, queries: seq<Query>, env: Env): (rs: seq<Record>)
    requires args.numWorkers >= 1
    ensures |rs| == |queries|
  {
    seq(|queries|, k requires 0 <= k < |queries| =>
      ProcessSpec(args, queries[k], WorkerId(k, args.numWorkers), env, AnswerOf(env)).0)
  }

  /** Every failed record still has the query's `"query"` field. */
  predicate QueriesNamed(failed: seq<Record>) {
    forall k :: 0 <= k < |failed| ==> "query" in failed[k].data
  }

  /** The statistics `main` prints before it saves: the average time per
      query divides by the number of queries, and the list of failed queries
      reads every failed record's `"query"`. Either can raise, and then
      nothing is saved. */
  function ReportOf(results: seq<Record>): Result<Report, string> {
    if results == [] then Failure(ZERO_DIVISION)
    else if !QueriesNamed(Failed(results)) then Failure(KeyMessage("query"))
    else Success(Report(results, Successful(results), Failed(results)))
  }

  /** Every errored record is among the failed ones. */
  lemma ErroredIsFailed(results: seq<Record>, r: Record)
    requires r in results && r.status.Errored?
    ensures r in Failed(results)
  {
    StatusOnly(results);
    StatusCounts(results);
    assert r in multiset(results);
    assert r !in Successful(results);
  }

  /** The report is saved exactly when there is at least one query and every
      errored record kept the query's `"query"` field; it then holds every
      record and splits them by status. */
  lemma ReportOfIff(results: seq<Record>)
    ensures ReportOf(results).Success?
            <==> results != [] && forall r :: r in results && r.status.Errored? ==> "query" in r.data
    ensures results == [] ==> ReportOf(results) == Failure(ZERO_DIVISION)
    ensures results != [] && ReportOf(results).Failure? ==> ReportOf(results) == Failure(KeyMessage("query"))
    ensures ReportOf(results).Success? ==>
              var report := ReportOf(results).value;
              && report.results == results
              && (forall r :: r in report.successful ==> r in results && r.status.Succeeded?)
              && (forall r :: r in report.failed ==> r in results && r.status.Errored?)
              && multiset(report.successful) + multiset(report.failed) == multiset(results)
  {
    PartitionByStatus(results);
    if results != [] && QueriesNamed(Failed(results)) {
      forall r | r in results && r.status.Errored?
        ensures "query" in r.data
      {
        ErroredIsFailed(results, r);
        var k :| 0 <= k < |Failed(results)| && Failed(results)[k] == r;
      }
    }
    if results != [] && !QueriesNamed(Failed(results)) {
      var k :| 0 <= k < |Failed(results)| && "query" !in Failed(results)[k].data;
      assert Failed(results)[k] in Failed(results);
    }
  }

  /** A query without a `"query"` field makes `main` lose every result: its
      record is an error that keeps the query's fields, and printing it
      raises `KeyError('query')` before the results are saved. */
  lemma UnnamedQueryLosesReport(args: Args, queries: seq<Query>, env: Env, k: int)
    requires args.numWorkers >= 1
    requires 0 <= k < |queries| && "query" !in queries[k]
    ensures ReportOf(Records(args, queries, env)) == Failure(KeyMessage("query"))
  {
    var results := Records(args, queries, env);
    OneRecord(args, queries[k], WorkerId(k, args.numWorkers), env, AnswerOf(env));
    assert results[k] in results;
    ReportOfIff(results);
  }

  /** The script: the worker count is clamped, then `main` picks the base
      path, rewrites the dataset paths in place, processes every query,
      splits the records by status and prints its statistics. `queries` is
      what the queries file holds. */
  method Run(args: Args, dataRoot: string, queries: array<Query>, env: Env) returns (r: Result<Report, string>)
    modifies queries
    ensures BasePath(dataRoot, args.dataType).Failure? ==>
              r == Failure(BasePath(dataRoot, args.dataType).error) && queries[..] == old(queries[..])
    ensures BasePath(dataRoot, args.dataType).Success? ==>
              var base := BasePath(dataRoot, args.dataType).value;
              if forall k :: 0 <= k < queries.Length ==> "dataset_path" in old(queries[k]) then
                && queries[..] == RewriteAll(old(queries[..]), base)
                && r == ReportOf(Records(args.(numWorkers := ClampWorkers(args.numWorkers)), queries[..], env))
              else
                && r == Failure(KeyMessage("dataset_path"))
                && exists k :: RewrittenUpTo(old(queries[..]), queries[..], base, k)
  {
    var clamped := args.(numWorkers := ClampWorkers(args.numWorkers));
    var base := BasePath(dataRoot, clamped.dataType);
    if base.Failure? {
      return Failure(base.error);
    }
    var rewritten := RewritePaths(queries, base.value);
    if rewritten.Failure? {
      return Failure(rewritten.error);
    }
    var results := RunQueries(clamped, queries[..], env);
    assert results == Records(clamped, queries[..], env);
    r := ReportResults(results);
  }

  /** The statistics and the save at the end of `main`: the records are
      split by status, the average time divides by the number of queries,
      and every failed record's `"query"` is printed. */
  method ReportResults(results: seq<Record>) returns (r: Result<Report, string>)
    ensures r == ReportOf(results)
  {
    var successful := Successful(results);
    var failed := Failed(results);
    if |results| == 0 {
      return Failure(ZERO_DIVISION);
    }
    for i := 0 to |failed|
      invariant forall k :: 0 <= k < i ==> "query" in failed[k].data
    {
      if "query" !in failed[i].data {
        return Failure(KeyMessage("query"));
      }
    }
    r := Success(Report(results, successful, failed));
  }
}
