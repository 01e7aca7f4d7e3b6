/** `Baseline`: a chatbot with a code runner that answers a causal query by
    alternating between asking the chatbot and running the code it writes,
    then asks for a JSON summary and recovers it. The conversation and the
    code runs are specified by functions of the collaborators' answering
    functions; the class's methods are proved to perform exactly them. */
module Baselines {
  import opened Common
  import opened CodeBlocks
  import opened JsonRecovery
  import opened Collaborators

  const NOT_PERSISTENT := "Error: Not in persistent mode"

  /** The prompt `get_final_result` sends; its wording is not modelled. */
  const FINAL_PROMPT: string

  /** What a query format offers: the prompt lists by stage (`"pre"`,
      `"post"`), and the follow-up prompt made from a code output. */
  datatype QueryFormat = QueryFormat(queries: map<string, seq<string>>, analysis: string -> string)

  function PreQueries(f: QueryFormat): seq<string> {
    if "pre" in f.queries then f.queries["pre"] else []
  }

  function PostQueries(f: QueryFormat, postSteps: bool): seq<string> {
    if postSteps && "post" in f.queries then f.queries["post"] else []
  }

  /** The new exchanges of a run of asks and the reply current after them. */
  datatype Chat = Chat(exchanges: seq<Exchange>, reply: string)

  /** Asking `prompts` in order on top of `history`, starting from the
      current reply `reply`. */
  function AskAll(respond: (seq<Exchange>, string) -> string, history: seq<Exchange>,
                  prompts: seq<string>, reply: string): Chat
    decreases |prompts|
  {
    if prompts == [] then Chat([], reply)
    else
      var r := respond(history, prompts[0]);
      var rest := AskAll(respond, history + [Exchange(prompts[0], r)], prompts[1..], r);
      Chat([Exchange(prompts[0], r)] + rest.exchanges, rest.reply)
  }

  /** The code unit `answer` runs from a reply: its first python block. */
  function PythonCode(reply: string): Option<string> {
    FindCode(reply, "python")
  }

  /** What the retry loop produces: its exchanges, codes, outputs, and the
      reply current when it ends. */
  datatype Loop = Loop(exchanges: seq<Exchange>, codes: seq<string>, outputs: seq<string>, reply: string)

  /** The retry loop with `n` iterations left, on top of the conversation
      `history` and the runner's `requests`, with `reply` current: stop when
      no iteration is left or the reply holds no python block; otherwise run
      the code, ask for its analysis and go on with the new reply. */
  function Retry(respond: (seq<Exchange>, string) -> string, execute: (seq<Request>, string) -> string,
                 analysis: string -> string, codeOf: string -> Option<string>, n: nat,
                 history: seq<Exchange>, requests: seq<Request>,
                 reply: string): Loop
    decreases n
  {
    if n == 0 then Loop([], [], [], reply)
    else
      match codeOf(reply)
      case None => Loop([], [], [], reply)
      case Some(code) =>
        var output := execute(requests, code);
        var prompt := analysis(output);
        var r := respond(history, prompt);
        var rest := Retry(respond, execute, analysis, codeOf, n - 1, history + [Exchange(prompt, r)],
                          requests + [RunCode(code)], r);
        Loop([Exchange(prompt, r)] + rest.exchanges, [code] + rest.codes, [output] + rest.outputs, rest.reply)
  }

  /** `get_final_result`'s recovery with the decoder `loads`, as the
      function `AnswerSpec` applies to the last reply. */
  function RecoverWith(loads: string -> Result<Value, string>): string -> FinalResult {
    reply => Recover(reply, loads)
  }

  /** The requests `run_code` makes for `codes`, in order. */
  function Runs(codes: seq<string>): (rs: seq<Request>)
    ensures |rs| == |codes|
    ensures forall k :: 0 <= k < |codes| ==> rs[k] == RunCode(codes[k])
  {
    seq(|codes|, k requires 0 <= k < |codes| => RunCode(codes[k]))
  }

  /** The analysis prompts made from `outputs`, in order. */
  function Analyses(analysis: string -> string, outputs: seq<string>): (ps: seq<string>)
    ensures |ps| == |outputs|
    ensures forall k :: 0 <= k < |outputs| ==> ps[k] == analysis(outputs[k])
  {
    seq(|outputs|, k requires 0 <= k < |outputs| => analysis(outputs[k]))
  }

  /** The dictionary `answer` returns. */
  datatype AnalysisRun = AnalysisRun(query: string, codes: seq<string>, codeOutputs: seq<string>,
                                     chatHistory: seq<Exchange>, retries: nat, finalResult: FinalResult)

  /** The run and the requests the runner has served after it. */
  datatype Outcome = Outcome(run: AnalysisRun, requests: seq<Request>)

  /** `answer` as a function of the collaborators' answering functions: the
      history is cleared, the `"pre"` prompts asked, the retry loop run at
      most `max(0, max_retries)` times, the `"post"` prompts asked when
      `post_steps` is set, and the final summary asked for and recovered by
      `recover` (`answer` uses `RecoverWith(json.loads)`). */
  function AnswerSpec(respond: (seq<Exchange>, string) -> string, execute: (seq<Request>, string) -> string,
                      codeOf: string -> Option<string>, maxRetries: int, requests: seq<Request>, query: string, f: QueryFormat,
                      postSteps: bool, recover: string -> FinalResult): Outcome
  {
    var pre := AskAll(respond, [], PreQueries(f), "");
    var loop := Retry(respond, execute, f.analysis, codeOf, NonNeg(maxRetries), pre.exchanges, requests, pre.reply);
    var post := AskAll(respond, pre.exchanges + loop.exchanges, PostQueries(f, postSteps), loop.reply);
    var history := pre.exchanges + loop.exchanges + post.exchanges;
    var finalReply := respond(history, FINAL_PROMPT);
    Outcome(AnalysisRun(query, loop.codes, loop.outputs, history + [Exchange(FINAL_PROMPT, finalReply)],
                        NonNeg(|loop.codes| - 1), recover(finalReply)),
            requests + Runs(loop.codes))
  }

  /** The retry loop ends when no iteration is left or the reply holds no
      python block. */
  lemma RetryStops(respond: (seq<Exchange>, string) -> string, execute: (seq<Request>, string) -> string,
                   analysis: string -> string, codeOf: string -> Option<string>, n: nat,
                 history: seq<Exchange>, requests: seq<Request>,
                   reply: string)
    requires n == 0 || codeOf(reply).None?
    ensures Retry(respond, execute, analysis, codeOf, n, history, requests, reply) == Loop([], [], [], reply)
  {
  }

  /** One iteration of the retry loop: the code found is run, its output
      turned into the analysis prompt, and the reply to it is current for the
      rest of the loop. */
  lemma RetryRuns(respond: (seq<Exchange>, string) -> string, execute: (seq<Request>, string) -> string,
                  analysis: string -> string, codeOf: string -> Option<string>, n: nat,
                 history: seq<Exchange>, requests: seq<Request>,
                  reply: string)
    requires n > 0 && codeOf(reply).Some?
    ensures var code := codeOf(reply).value;
            var output := execute(requests, code);
            var r := respond(history, analysis(output));
            var rest := Retry(respond, execute, analysis, codeOf, n - 1, history + [Exchange(analysis(output), r)],
                              requests + [RunCode(code)], r);
            Retry(respond, execute, analysis, codeOf, n, history, requests, reply)
            == Loop([Exchange(analysis(output), r)] + rest.exchanges, [code] + rest.codes,
                    [output] + rest.outputs, rest.reply)
  {
  }

  lemma ShiftOne<T>(a: seq<T>, x: T, b: seq<T>)
    ensures a + ([x] + b) == (a + [x]) + b
  {
  }

  lemma RunsSnoc(codes: seq<string>, code: string)
    ensures Runs(codes + [code]) == Runs(codes) + [RunCode(code)]
  {
  }

  /** Every reply in `exchanges` is what the chatbot answers to its prompt
      given `base` and the exchanges before it: the conversation was held on
      top of exactly `base`. */
  predicate Coherent(respond: (seq<Exchange>, string) -> string, base: seq<Exchange>, exchanges: seq<Exchange>) {
    forall k :: 0 <= k < |exchanges| ==> exchanges[k].reply == respond(base + exchanges[..k], exchanges[k].prompt)
  }

  /** Every output is what the runner printed for its code given `requests`
      and the runs before it. */
  predicate Executed(execute: (seq<Request>, string) -> string, requests: seq<Request>,
                     codes: seq<string>, outputs: seq<string>)
    requires |codes| == |outputs|
  {
    forall k :: 0 <= k < |codes| ==> outputs[k] == execute(requests + Runs(codes[..k]), codes[k])
  }

  /** The reply current after `exchanges`, starting from `reply`. */
  function ReplyAfter(reply: string, exchanges: seq<Exchange>): string {
    if exchanges == [] then reply else exchanges[|exchanges| - 1].reply
  }

  lemma PromptsCons(e: Exchange, xs: seq<Exchange>)
    ensures Prompts([e] + xs) == [e.prompt] + Prompts(xs)
  {
  }

  lemma AnalysesCons(analysis: string -> string, output: string, outputs: seq<string>)
    ensures Analyses(analysis, [output] + outputs) == [analysis(output)] + Analyses(analysis, outputs)
  {
  }

  lemma CoherentCons(respond: (seq<Exchange>, string) -> string, base: seq<Exchange>, e: Exchange, xs: seq<Exchange>)
    requires e.reply == respond(base, e.prompt) && Coherent(respond, base + [e], xs)
    ensures Coherent(respond, base, [e] + xs)
  {
    var ys := [e] + xs;
    forall k | 0 <= k < |ys|
      ensures ys[k].reply == respond(base + ys[..k], ys[k].prompt)
    {
      if k == 0 {
        assert base + ys[..0] == base;
      } else {
        assert ys[..k] == [e] + xs[..k - 1];
        assert base + ys[..k] == (base + [e]) + xs[..k - 1];
      }
    }
  }

  /** A conversation held on `base` and continued on `base + a` is one
      conversation held on `base`. */
  lemma CoherentAppend(respond: (seq<Exchange>, string) -> string, base: seq<Exchange>, a: seq<Exchange>, b: seq<Exchange>)
    requires Coherent(respond, base, a) && Coherent(respond, base + a, b)
    ensures Coherent(respond, base, a + b)
  {
    var ys := a + b;
    forall k | 0 <= k < |ys|
      ensures ys[k].reply == respond(base + ys[..k], ys[k].prompt)
    {
      if k < |a| {
        assert ys[..k] == a[..k];
      } else {
        assert ys[..k] == a + b[..k - |a|];
        assert base + ys[..k] == (base + a) + b[..k - |a|];
      }
    }
  }

  /** The runs before run `k` of `[code] + codes` are `code`'s and those
      before run `k - 1` of `codes`. */
  lemma RunsBefore(requests: seq<Request>, code: string, codes: seq<string>, k: nat)
    requires 0 < k <= |codes| + 1
    ensures requests + Runs(([code] + codes)[..k]) == (requests + [RunCode(code)]) + Runs(codes[..k - 1])
  {
    assert ([code] + codes)[..k] == [code] + codes[..k - 1];
    assert Runs([code] + codes[..k - 1]) == [RunCode(code)] + Runs(codes[..k - 1]);
  }

  lemma ExecutedCons(execute: (seq<Request>, string) -> string, requests: seq<Request>,
                     code: string, output: string, codes: seq<string>, outputs: seq<string>)
    requires |codes| == |outputs|
    requires output == execute(requests, code) && Executed(execute, requests + [RunCode(code)], codes, outputs)
    ensures Executed(execute, requests, [code] + codes, [output] + outputs)
  {
    var cs := [code] + codes;
    var os := [output] + outputs;
    forall k | 0 <= k < |cs|
      ensures os[k] == execute(requests + Runs(cs[..k]), cs[k])
    {
      if k == 0 {
        assert requests + Runs(cs[..0]) == requests;
      } else {
        RunsBefore(requests, code, codes, k);
        assert os[k] == outputs[k - 1] && cs[k] == codes[k - 1];
      }
    }
  }

  /** Asking `prompts` records exactly those prompts, each answered given
      the history before it, and leaves the last reply current. */
  lemma {:induction false} AskAllShape(respond: (seq<Exchange>, string) -> string, history: seq<Exchange>,
                                       prompts: seq<string>, reply: string)
    ensures var c := AskAll(respond, history, prompts, reply);
            && Prompts(c.exchanges) == prompts
            && c.reply == ReplyAfter(reply, c.exchanges)
    decreases |prompts|
  {
    if prompts != [] {
      var r := respond(history, prompts[0]);
      var e := Exchange(prompts[0], r);
      var rest := AskAll(respond, history + [e], prompts[1..], r);
      AskAllShape(respond, history + [e], prompts[1..], r);
      assert AskAll(respond, history, prompts, reply) == Chat([e] + rest.exchanges, rest.reply);
      PromptsCons(e, rest.exchanges);
      assert [prompts[0]] + prompts[1..] == prompts;
      ReplyAfterCons(reply, e, rest.exchanges);
    }
  }

  /** Each reply of `AskAll` is the chatbot's answer given `history` and
      the exchanges before it. */
  lemma {:induction false} AskAllCoherent(respond: (seq<Exchange>, string) -> string, history: seq<Exchange>,
                                       prompts: seq<string>, reply: string)
    ensures var c := AskAll(respond, history, prompts, reply);
            Coherent(respond, history, c.exchanges)
    decreases |prompts|
  {
    if prompts != [] {
      var r := respond(history, prompts[0]);
      var e := Exchange(prompts[0], r);
      var rest := AskAll(respond, history + [e], prompts[1..], r);
      AskAllCoherent(respond, history + [e], prompts[1..], r);
      CoherentCons(respond, history, e, rest.exchanges);
    }
  }

  /** The retry loop runs at most `n` times; its three lists grow in
      lockstep, and each follow-up prompt is the analysis of the output of
      the same iteration. */
  lemma {:induction false} RetryCounts(respond: (seq<Exchange>, string) -> string,
                                       execute: (seq<Request>, string) -> string, analysis: string -> string, codeOf: string -> Option<string>,
                                       n: nat, history: seq<Exchange>, requests: seq<Request>, reply: string)
    ensures var t := Retry(respond, execute, analysis, codeOf, n, history, requests, reply);
            |t.codes| == |t.outputs| == |t.exchanges| <= n
    decreases n
  {
    if n > 0 && codeOf(reply).Some? {
      RetryRuns(respond, execute, analysis, codeOf, n, history, requests, reply);
      var code := codeOf(reply).value;
      var output := execute(requests, code);
      var r := respond(history, analysis(output));
      var e := Exchange(analysis(output), r);
      RetryCounts(respond, execute, analysis, codeOf, n - 1, history + [e], requests + [RunCode(code)], r);
    }
  }

  /** Each follow-up prompt of the retry loop is the analysis of the output
      of the same iteration. */
  lemma {:induction false} RetryPrompts(respond: (seq<Exchange>, string) -> string,
                                       execute: (seq<Request>, string) -> string, analysis: string -> string, codeOf: string -> Option<string>,
                                       n: nat, history: seq<Exchange>, requests: seq<Request>, reply: string)
    ensures var t := Retry(respond, execute, analysis, codeOf, n, history, requests, reply);
            Prompts(t.exchanges) == Analyses(analysis, t.outputs)
    decreases n
  {
    if n > 0 && codeOf(reply).Some? {
      RetryRuns(respond, execute, analysis, codeOf, n, history, requests, reply);
      var code := codeOf(reply).value;
      var output := execute(requests, code);
      var r := respond(history, analysis(output));
      var e := Exchange(analysis(output), r);
      var rest := Retry(respond, execute, analysis, codeOf, n - 1, history + [e], requests + [RunCode(code)], r);
      RetryPrompts(respond, execute, analysis, codeOf, n - 1, history + [e], requests + [RunCode(code)], r);
      var t := Retry(respond, execute, analysis, codeOf, n, history, requests, reply);
      assert t.exchanges == [e] + rest.exchanges && t.outputs == [output] + rest.outputs;
      PromptsCons(e, rest.exchanges);
      AnalysesCons(analysis, output, rest.outputs);
    }
  }

  /** The retry loop's conversation is held on top of `history`. */
  lemma {:induction false} RetryCoherent(respond: (seq<Exchange>, string) -> string,
                                         execute: (seq<Request>, string) -> string, analysis: string -> string, codeOf: string -> Option<string>,
                                         n: nat, history: seq<Exchange>, requests: seq<Request>, reply: string)
    ensures var t := Retry(respond, execute, analysis, codeOf, n, history, requests, reply);
            Coherent(respond, history, t.exchanges)
    decreases n
  {
    if n > 0 && codeOf(reply).Some? {
      RetryRuns(respond, execute, analysis, codeOf, n, history, requests, reply);
      var code := codeOf(reply).value;
      var output := execute(requests, code);
      var r := respond(history, analysis(output));
      var e := Exchange(analysis(output), r);
      var rest := Retry(respond, execute, analysis, codeOf, n - 1, history + [e], requests + [RunCode(code)], r);
      RetryCoherent(respond, execute, analysis, codeOf, n - 1, history + [e], requests + [RunCode(code)], r);
      var t := Retry(respond, execute, analysis, codeOf, n, history, requests, reply);
      assert t.exchanges == [e] + rest.exchanges;
      CoherentCons(respond, history, e, rest.exchanges);
    }
  }

  /** Every output of the retry loop is what the runner printed for its
      code after `requests` and the earlier runs. */
  lemma {:induction false} RetryExecuted(respond: (seq<Exchange>, string) -> string,
                                         execute: (seq<Request>, string) -> string, analysis: string -> string, codeOf: string -> Option<string>,
                                         n: nat, history: seq<Exchange>, requests: seq<Request>, reply: string)
    ensures var t := Retry(respond, execute, analysis, codeOf, n, history, requests, reply);
            |t.codes| == |t.outputs| && Executed(execute, requests, t.codes, t.outputs)
    decreases n
  {
    if n > 0 && codeOf(reply).Some? {
      RetryRuns(respond, execute, analysis, codeOf, n, history, requests, reply);
      var code := codeOf(reply).value;
      var output := execute(requests, code);
      var r := respond(history, analysis(output));
      var e := Exchange(analysis(output), r);
      var rest := Retry(respond, execute, analysis, codeOf, n - 1, history + [e], requests + [RunCode(code)], r);
      RetryExecuted(respond, execute, analysis, codeOf, n - 1, history + [e], requests + [RunCode(code)], r);
      var t := Retry(respond, execute, analysis, codeOf, n, history, requests, reply);
      assert t.codes == [code] + rest.codes && t.outputs == [output] + rest.outputs;
      ExecutedCons(execute, requests, code, output, rest.codes, rest.outputs);
    }
  }

  /** The code of iteration `k` is the python block of the reply current
      before it; the loop ends early only at a reply without one; and the
      reply current after the loop is the last one received. */
  lemma {:induction false} RetryCodes(respond: (seq<Exchange>, string) -> string,
                                      execute: (seq<Request>, string) -> string, analysis: string -> string, codeOf: string -> Option<string>,
                                      n: nat, history: seq<Exchange>, requests: seq<Request>, reply: string)
    ensures var t := Retry(respond, execute, analysis, codeOf, n, history, requests, reply);
            && |t.codes| <= |t.exchanges|
            && (forall k :: 0 <= k < |t.codes| ==>
                  codeOf(ReplyAfter(reply, t.exchanges[..k])) == Some(t.codes[k]))
            && (|t.codes| < n ==> codeOf(t.reply).None?)
            && t.reply == ReplyAfter(reply, t.exchanges)
    decreases n
  {
    if n > 0 && codeOf(reply).Some? {
      RetryRuns(respond, execute, analysis, codeOf, n, history, requests, reply);
      var code := codeOf(reply).value;
      var output := execute(requests, code);
      var r := respond(history, analysis(output));
      var e := Exchange(analysis(output), r);
      var rest := Retry(respond, execute, analysis, codeOf, n - 1, history + [e], requests + [RunCode(code)], r);
      RetryCodes(respond, execute, analysis, codeOf, n - 1, history + [e], requests + [RunCode(code)], r);
      CodesCons(codeOf, reply, code, e, rest.exchanges, rest.codes);
    }
  }

  /** One more iteration in front of the loop keeps every code the python
      block of the reply current before it. */
  lemma CodesCons(codeOf: string -> Option<string>, reply: string, code: string, e: Exchange,
                  exchanges: seq<Exchange>, codes: seq<string>)
    requires codeOf(reply) == Some(code) && |codes| <= |exchanges|
    requires forall k :: 0 <= k < |codes| ==> codeOf(ReplyAfter(e.reply, exchanges[..k])) == Some(codes[k])
    ensures forall k :: 0 <= k < |codes| + 1 ==>
              codeOf(ReplyAfter(reply, ([e] + exchanges)[..k])) == Some(([code] + codes)[k])
  {
    forall k | 0 <= k < |codes| + 1
      ensures codeOf(ReplyAfter(reply, ([e] + exchanges)[..k])) == Some(([code] + codes)[k])
    {
      if k > 0 {
        assert ([e] + exchanges)[..k] == [e] + exchanges[..k - 1];
        assert ReplyAfter(reply, ([e] + exchanges)[..k]) == ReplyAfter(e.reply, exchanges[..k - 1]);
      }
    }
  }

  lemma ReplyAfterCons(reply: string, e: Exchange, xs: seq<Exchange>)
    ensures ReplyAfter(reply, [e] + xs) == ReplyAfter(e.reply, xs)
  {
  }

  lemma PromptsAppend(a: seq<Exchange>, b: seq<Exchange>)
    ensures Prompts(a + b) == Prompts(a) + Prompts(b)
  {
  }

  lemma ReplyAfterAppend(reply: string, a: seq<Exchange>, b: seq<Exchange>)
    ensures ReplyAfter(ReplyAfter(reply, a), b) == ReplyAfter(reply, a + b)
  {
  }

  lemma CoherentLast(respond: (seq<Exchange>, string) -> string, base: seq<Exchange>, prompt: string)
    ensures Coherent(respond, base, [Exchange(prompt, respond(base, prompt))])
  {
    assert base + [Exchange(prompt, respond(base, prompt))][..0] == base;
  }

  /** What `answer` reports about its runs: every code it ran has its
      output, there are at most `max(0, max_retries)` of them, the runner
      served exactly those runs in order, each output is what the runner
      printed given the runs before it, and `retries` is one less than the
      number of runs (0 when there was none). */
  lemma AnswerBookkeeping(respond: (seq<Exchange>, string) -> string, execute: (seq<Request>, string) -> string,
                          codeOf: string -> Option<string>, maxRetries: int, requests: seq<Request>, query: string, f: QueryFormat,
                          postSteps: bool, recover: string -> FinalResult)
    ensures var o := AnswerSpec(respond, execute, codeOf, maxRetries, requests, query, f, postSteps, recover);
            && o.run.query == query
            && |o.run.codes| == |o.run.codeOutputs| <= NonNeg(maxRetries)
            && o.run.retries == (if o.run.codes == [] then 0 else |o.run.codes| - 1)
            && o.requests == requests + Runs(o.run.codes)
            && Executed(execute, requests, o.run.codes, o.run.codeOutputs)
  {
    var pre := AskAll(respond, [], PreQueries(f), "");
    RetryCounts(respond, execute, f.analysis, codeOf, NonNeg(maxRetries), pre.exchanges, requests, pre.reply);
    RetryExecuted(respond, execute, f.analysis, codeOf, NonNeg(maxRetries), pre.exchanges, requests, pre.reply);
  }

  /** The conversation `answer` returns starts from an empty history and
      holds, in order, the `"pre"` prompts, one analysis prompt per code
      output, the `"post"` prompts when `post_steps` is set, and the final
      summary request; every reply is the chatbot's answer given exactly
      the exchanges before it; the final result is recovered from the last
      reply. */
  lemma AnswerConversation(respond: (seq<Exchange>, string) -> string, execute: (seq<Request>, string) -> string,
                           codeOf: string -> Option<string>, maxRetries: int, requests: seq<Request>, query: string, f: QueryFormat,
                           postSteps: bool, recover: string -> FinalResult)
    ensures var run := AnswerSpec(respond, execute, codeOf, maxRetries, requests, query, f, postSteps, recover).run;
            && Prompts(run.chatHistory)
               == PreQueries(f) + Analyses(f.analysis, run.codeOutputs) + PostQueries(f, postSteps) + [FINAL_PROMPT]
            && Coherent(respond, [], run.chatHistory)
            && run.finalResult == recover(run.chatHistory[|run.chatHistory| - 1].reply)
  {
    var pre := AskAll(respond, [], PreQueries(f), "");
    var loop := Retry(respond, execute, f.analysis, codeOf, NonNeg(maxRetries), pre.exchanges, requests, pre.reply);
    var post := AskAll(respond, pre.exchanges + loop.exchanges, PostQueries(f, postSteps), loop.reply);
    AskAllShape(respond, [], PreQueries(f), "");
    AskAllCoherent(respond, [], PreQueries(f), "");
    RetryPrompts(respond, execute, f.analysis, codeOf, NonNeg(maxRetries), pre.exchanges, requests, pre.reply);
    RetryCoherent(respond, execute, f.analysis, codeOf, NonNeg(maxRetries), pre.exchanges, requests, pre.reply);
    AskAllShape(respond, pre.exchanges + loop.exchanges, PostQueries(f, postSteps), loop.reply);
    AskAllCoherent(respond, pre.exchanges + loop.exchanges, PostQueries(f, postSteps), loop.reply);
    var history := pre.exchanges + loop.exchanges + post.exchanges;
    StagesCoherent(respond, pre.exchanges, loop.exchanges, post.exchanges);
    StagesPrompts(pre.exchanges, loop.exchanges, post.exchanges, Exchange(FINAL_PROMPT, respond(history, FINAL_PROMPT)));
  }

  /** Three stages of a conversation, each held on top of the ones before
      it, followed by the final summary request, form one conversation held
      from an empty history. */
  lemma StagesCoherent(respond: (seq<Exchange>, string) -> string,
                       e1: seq<Exchange>, e2: seq<Exchange>, e3: seq<Exchange>)
    requires Coherent(respond, [], e1) && Coherent(respond, e1, e2) && Coherent(respond, e1 + e2, e3)
    ensures var history := e1 + e2 + e3;
            Coherent(respond, [], history + [Exchange(FINAL_PROMPT, respond(history, FINAL_PROMPT))])
  {
    var history := e1 + e2 + e3;
    assert [] + e1 == e1;
    CoherentAppend(respond, [], e1, e2);
    assert [] + (e1 + e2) == e1 + e2;
    CoherentAppend(respond, [], e1 + e2, e3);
    CoherentLast(respond, history, FINAL_PROMPT);
    assert [] + history == history;
    CoherentAppend(respond, [], history, [Exchange(FINAL_PROMPT, respond(history, FINAL_PROMPT))]);
  }

  lemma StagesPrompts(e1: seq<Exchange>, e2: seq<Exchange>, e3: seq<Exchange>, last: Exchange)
    ensures Prompts(e1 + e2 + e3 + [last]) == Prompts(e1) + Prompts(e2) + Prompts(e3) + [last.prompt]
  {
    PromptsAppend(e1, e2);
    PromptsAppend(e1 + e2, e3);
    PromptsAppend(e1 + e2 + e3, [last]);
  }

  /** In the conversation `whole`, whose first `p` exchanges come before
      the loop, the code of run `k` is the python block of the reply current
      after `p + k` exchanges, and when there were fewer than `n` runs the
      reply current after them holds no python block. */
  predicate CodesFromReplies(codeOf: string -> Option<string>, n: nat, p: nat, whole: seq<Exchange>, codes: seq<string>) {
    && p + |codes| <= |whole|
    && (forall k :: 0 <= k < |codes| ==> codeOf(ReplyAfter("", whole[..p + k])) == Some(codes[k]))
    && (|codes| < n ==> codeOf(ReplyAfter("", whole[..p + |codes|])).None?)
  }

  /** `AnswerSpec` in terms of its three stages. */
  lemma AnswerSpecIs(respond: (seq<Exchange>, string) -> string, execute: (seq<Request>, string) -> string,
                     codeOf: string -> Option<string>, maxRetries: int, requests: seq<Request>, query: string, f: QueryFormat,
                     postSteps: bool, recover: string -> FinalResult, pre: Chat, loop: Loop, post: Chat)
    requires pre == AskAll(respond, [], PreQueries(f), "")
    requires loop == Retry(respond, execute, f.analysis, codeOf, NonNeg(maxRetries), pre.exchanges, requests, pre.reply)
    requires post == AskAll(respond, pre.exchanges + loop.exchanges, PostQueries(f, postSteps), loop.reply)
    ensures var history := pre.exchanges + loop.exchanges + post.exchanges;
            var finalReply := respond(history, FINAL_PROMPT);
            AnswerSpec(respond, execute, codeOf, maxRetries, requests, query, f, postSteps, recover)
            == Outcome(AnalysisRun(query, loop.codes, loop.outputs, history + [Exchange(FINAL_PROMPT, finalReply)],
                                   NonNeg(|loop.codes| - 1), recover(finalReply)),
                       requests + Runs(loop.codes))
  {
  }

  /** The code of each run is the python block of the reply current before
      it (the last reply of the `"pre"` prompts, then the last analysis
      reply), and the loop ends before `max(0, max_retries)` runs only at a
      reply that holds no python block. */
  lemma AnswerCodesFromReplies(respond: (seq<Exchange>, string) -> string, execute: (seq<Request>, string) -> string,
                               codeOf: string -> Option<string>, maxRetries: int, requests: seq<Request>, query: string, f: QueryFormat,
                               postSteps: bool, recover: string -> FinalResult)
    ensures var run := AnswerSpec(respond, execute, codeOf, maxRetries, requests, query, f, postSteps, recover).run;
            CodesFromReplies(codeOf, NonNeg(maxRetries), |PreQueries(f)|, run.chatHistory, run.codes)
  {
    var run := AnswerSpec(respond, execute, codeOf, maxRetries, requests, query, f, postSteps, recover).run;
    var pre, after := AnswerStages(respond, execute, codeOf, maxRetries, requests, query, f, postSteps, recover);
    LoopReplies(respond, execute, f.analysis, codeOf, NonNeg(maxRetries), pre.exchanges, requests, pre.reply,
                after, run.chatHistory, run.codes);
  }

  /** `AnswerSpec`'s conversation is the `"pre"` exchanges, the loop's,
      and what follows the loop. */
  lemma AnswerStages(respond: (seq<Exchange>, string) -> string, execute: (seq<Request>, string) -> string,
                     codeOf: string -> Option<string>, maxRetries: int, requests: seq<Request>, query: string, f: QueryFormat,
                     postSteps: bool, recover: string -> FinalResult)
    returns (pre: Chat, after: seq<Exchange>)
    ensures pre == AskAll(respond, [], PreQueries(f), "")
    ensures |pre.exchanges| == |PreQueries(f)| && pre.reply == ReplyAfter("", pre.exchanges)
    ensures var loop := Retry(respond, execute, f.analysis, codeOf, NonNeg(maxRetries), pre.exchanges, requests, pre.reply);
            var run := AnswerSpec(respond, execute, codeOf, maxRetries, requests, query, f, postSteps, recover).run;
            run.chatHistory == pre.exchanges + loop.exchanges + after && run.codes == loop.codes
  {
    pre := AskAll(respond, [], PreQueries(f), "");
    var loop := Retry(respond, execute, f.analysis, codeOf, NonNeg(maxRetries), pre.exchanges, requests, pre.reply);
    var post := AskAll(respond, pre.exchanges + loop.exchanges, PostQueries(f, postSteps), loop.reply);
    var history := pre.exchanges + loop.exchanges + post.exchanges;
    after := post.exchanges + [Exchange(FINAL_PROMPT, respond(history, FINAL_PROMPT))];
    AskAllShape(respond, [], PreQueries(f), "");
  }

  /** The loop's view of the current reply, restated over the whole
      conversation that starts with the `"pre"` exchanges `pre` and goes on
      with `after`. */
  lemma LoopReplies(respond: (seq<Exchange>, string) -> string, execute: (seq<Request>, string) -> string,
                    analysis: string -> string, codeOf: string -> Option<string>, n: nat,
                    pre: seq<Exchange>, requests: seq<Request>, reply: string,
                    after: seq<Exchange>, whole: seq<Exchange>, codes: seq<string>)
    requires reply == ReplyAfter("", pre)
    requires var loop := Retry(respond, execute, analysis, codeOf, n, pre, requests, reply);
             whole == pre + loop.exchanges + after && codes == loop.codes
    ensures CodesFromReplies(codeOf, n, |pre|, whole, codes)
  {
    var loop := Retry(respond, execute, analysis, codeOf, n, pre, requests, reply);
    RetryCounts(respond, execute, analysis, codeOf, n, pre, requests, reply);
    RetryCodes(respond, execute, analysis, codeOf, n, pre, requests, reply);
    ReplyAfterInWhole(pre, reply, loop.exchanges, after, whole);
    assert loop.exchanges[..|codes|] == loop.exchanges;
  }

  lemma ReplyAfterInWhole(pre: seq<Exchange>, reply: string, exchanges: seq<Exchange>, after: seq<Exchange>,
                          whole: seq<Exchange>)
    requires reply == ReplyAfter("", pre) && whole == pre + exchanges + after
    ensures forall k :: 0 <= k <= |exchanges| ==>
              ReplyAfter("", whole[..|pre| + k]) == ReplyAfter(reply, exchanges[..k])
  {
    forall k | 0 <= k <= |exchanges|
      ensures ReplyAfter("", whole[..|pre| + k]) == ReplyAfter(reply, exchanges[..k])
    {
      assert whole[..|pre| + k] == pre + exchanges[..k];
      ReplyAfterAppend("", pre, exchanges[..k]);
    }
  }

  class Baseline {
    const chatbot: Chatbot
    const runner: CodeRunner
    const maxRetries: int
    const persistent: bool

    constructor(chatbot: Chatbot, runner: CodeRunner, persistent: bool, maxRetries: int)
      ensures this.chatbot == chatbot && this.runner == runner
      ensures this.persistent == persistent && this.maxRetries == maxRetries
    {
      this.chatbot := chatbot;
      this.runner := runner;
      this.persistent := persistent;
      this.maxRetries := maxRetries;
    }

    /** `answer(query, dataset_path, dataset_description, qf, post_steps)`,
        with the query-format class `qf` and `json.loads` as parameters. */
    method Answer(query: string, datasetPath: string, description: string,
                  qf: (string, string, string) -> QueryFormat, postSteps: bool,
                  loads: string -> Result<Value, string>) returns (run: AnalysisRun)
      modifies chatbot, runner
      ensures var o := AnswerSpec(chatbot.respond, runner.execute, PythonCode, maxRetries, old(runner.requests), query,
                                  qf(query, datasetPath, description), postSteps, RecoverWith(loads));
              run == o.run && chatbot.history == run.chatHistory && runner.requests == o.requests
    {
      chatbot.DeleteHistory();
      var f := qf(query, datasetPath, description);
      var queries := f.queries;
      var reply := "";
      if "pre" in queries {
        reply := AskInTurn(queries["pre"], reply);
      }
      ghost var pre := AskAll(chatbot.respond, [], PreQueries(f), "");
      assert chatbot.history == pre.exchanges && reply == pre.reply;
      var codes, outputs;
      codes, outputs, reply := RunWhileCode(f.analysis, PythonCode, reply);
      ghost var loop := Retry(chatbot.respond, runner.execute, f.analysis, PythonCode, NonNeg(maxRetries),
                              pre.exchanges, old(runner.requests), pre.reply);
      if postSteps && "post" in queries {
        reply := AskInTurn(queries["post"], reply);
      }
      ghost var post := AskAll(chatbot.respond, pre.exchanges + loop.exchanges, PostQueries(f, postSteps), loop.reply);
      ghost var history := pre.exchanges + loop.exchanges + post.exchanges;
      assert chatbot.history == history;
      var finalResult := GetFinalResult(loads);
      ghost var finalReply := chatbot.respond(history, FINAL_PROMPT);
      assert finalResult == RecoverWith(loads)(finalReply);
      run := AnalysisRun(query, codes, outputs, chatbot.history, NonNeg(|codes| - 1), finalResult);
      AnswerSpecIs(chatbot.respond, runner.execute, PythonCode, maxRetries, old(runner.requests), query, f, postSteps,
                   RecoverWith(loads), pre, loop, post);
    }

    /** The retry loop of `answer`: at most `max(0, max_retries)` times, run
        the code of the current reply and ask for the analysis of its
        output, until a reply holds no python block. The code of a reply is
        `codeOf(reply)`; `answer` uses `PythonCode`. */
    method RunWhileCode(analysis: string -> string, codeOf: string -> Option<string>, reply: string)
      returns (codes: seq<string>, outputs: seq<string>, last: string)
      modifies chatbot, runner
      ensures var loop := Retry(chatbot.respond, runner.execute, analysis, codeOf, NonNeg(maxRetries),
                                old(chatbot.history), old(runner.requests), reply);
              && codes == loop.codes && outputs == loop.outputs && last == loop.reply
              && chatbot.history == old(chatbot.history) + loop.exchanges
              && runner.requests == old(runner.requests) + Runs(codes)
    {
      ghost var n := NonNeg(maxRetries);
      ghost var loop := Retry(chatbot.respond, runner.execute, analysis, codeOf, n, chatbot.history, runner.requests, reply);
      codes, outputs, last := [], [], reply;
      for retryCount := 0 to NonNeg(maxRetries)
        invariant runner.requests == old(runner.requests) + Runs(codes)
        invariant var rest := Retry(chatbot.respond, runner.execute, analysis, codeOf, n - retryCount,
                                    chatbot.history, runner.requests, last);
                  && loop.codes == codes + rest.codes
                  && loop.outputs == outputs + rest.outputs
                  && old(chatbot.history) + loop.exchanges == chatbot.history + rest.exchanges
                  && loop.reply == rest.reply
      {
        var code := codeOf(last);
        if code.None? {
          RetryStops(chatbot.respond, runner.execute, analysis, codeOf, n - retryCount, chatbot.history, runner.requests, last);
          break;
        }
        ghost var rest := Retry(chatbot.respond, runner.execute, analysis, codeOf, n - retryCount,
                                chatbot.history, runner.requests, last);
        RetryRuns(chatbot.respond, runner.execute, analysis, codeOf, n - retryCount, chatbot.history, runner.requests, last);
        ghost var history := chatbot.history;
        RunsSnoc(codes, code.value);
        codes := codes + [code.value];
        var output := runner.RunCode(code.value);
        outputs := outputs + [output];
        last := chatbot.Ask(analysis(output));
        ghost var next := Retry(chatbot.respond, runner.execute, analysis, codeOf, n - retryCount - 1,
                                chatbot.history, runner.requests, last);
        assert rest.codes == [code.value] + next.codes;
        assert rest.outputs == [output] + next.outputs;
        assert rest.exchanges == [Exchange(analysis(output), last)] + next.exchanges;
        assert rest.reply == next.reply;
        ShiftOne(codes[..|codes| - 1], code.value, next.codes);
        ShiftOne(outputs[..|outputs| - 1], output, next.outputs);
        ShiftOne(history, Exchange(analysis(output), last), next.exchanges);
      }
    }

    /** Asks each prompt in turn; the last reply is the current one. */
    method AskInTurn(prompts: seq<string>, reply: string) returns (last: string)
      modifies chatbot
      ensures var c := AskAll(chatbot.respond, old(chatbot.history), prompts, reply);
              chatbot.history == old(chatbot.history) + c.exchanges && last == c.reply
    {
      ghost var whole := AskAll(chatbot.respond, chatbot.history, prompts, reply);
      last := reply;
      for i := 0 to |prompts|
        invariant var c := AskAll(chatbot.respond, chatbot.history, prompts[i..], last);
                  old(chatbot.history) + whole.exchanges == chatbot.history + c.exchanges
                  && whole.reply == c.reply
      {
        assert prompts[i..][1..] == prompts[i + 1..];
        last := chatbot.Ask(prompts[i]);
      }
    }

    /** `get_final_result()`: asks for the summary and recovers the JSON
        object from the reply. */
    method GetFinalResult(loads: string -> Result<Value, string>) returns (r: FinalResult)
      modifies chatbot
      ensures var reply := chatbot.respond(old(chatbot.history), FINAL_PROMPT);
              chatbot.history == old(chatbot.history) + [Exchange(FINAL_PROMPT, reply)]
              && r == Recover(reply, loads)
    {
      var reply := chatbot.Ask(FINAL_PROMPT);
      r := RecoverJson(reply, loads);
    }

    /** `get_variable_value(variable_name)`. */
    method GetVariableValue(name: string) returns (v: Value)
      modifies runner
      ensures !persistent ==> v == Str(NOT_PERSISTENT) && runner.requests == old(runner.requests)
      ensures persistent ==> v == runner.serve(old(runner.requests), Request.GetVariableValue(name))
                             && runner.requests == old(runner.requests) + [Request.GetVariableValue(name)]
    {
      if !persistent {
        return Str(NOT_PERSISTENT);
      }
      v := runner.Serve(Request.GetVariableValue(name));
    }

    /** `get_defined_variables()`. */
    method GetDefinedVariables() returns (v: Value)
      modifies runner
      ensures !persistent ==> v == Str(NOT_PERSISTENT) && runner.requests == old(runner.requests)
      ensures persistent ==> v == runner.serve(old(runner.requests), Request.GetDefinedVariables)
                             && runner.requests == old(runner.requests) + [Request.GetDefinedVariables]
    {
      if !persistent {
        return Str(NOT_PERSISTENT);
      }
      v := runner.Serve(Request.GetDefinedVariables);
    }

    /** `start_persistent_session()`. */
    method StartPersistentSession() returns (v: Value)
      modifies runner
      ensures !persistent ==> v == Str(NOT_PERSISTENT) && runner.requests == old(runner.requests)
      ensures persistent ==> v == runner.serve(old(runner.requests), StartContainer)
                             && runner.requests == old(runner.requests) + [StartContainer]
    {
      if !persistent {
        return Str(NOT_PERSISTENT);
      }
      v := runner.Serve(StartContainer);
    }

    /** `stop_persistent_session()`. */
    method StopPersistentSession() returns (v: Value)
      modifies runner
      ensures !persistent ==> v == Str(NOT_PERSISTENT) && runner.requests == old(runner.requests)
      ensures persistent ==> v == runner.serve(old(runner.requests), StopContainer)
                             && runner.requests == old(runner.requests) + [StopContainer]
    {
      if !persistent {
        return Str(NOT_PERSISTENT);
      }
      v := runner.Serve(StopContainer);
    }

    /** `is_session_active()`: `False` outside persistent mode. */
    method IsSessionActive() returns (v: Value)
      modifies runner
      ensures !persistent ==> v == Bool(false) && runner.requests == old(runner.requests)
      ensures persistent ==> v == runner.serve(old(runner.requests), IsContainerRunning)
                             && runner.requests == old(runner.requests) + [IsContainerRunning]
    {
      if !persistent {
        return Bool(false);
      }
      v := runner.Serve(IsContainerRunning);
    }

    /** `upload_file(local_path, container_path)`. */
    method UploadFile(localPath: string, containerPath: Option<string>) returns (v: Value)
      modifies runner
      ensures !persistent ==> v == Str(NOT_PERSISTENT) && runner.requests == old(runner.requests)
      ensures persistent ==> v == runner.serve(old(runner.requests), Request.UploadFile(localPath, containerPath))
                             && runner.requests == old(runner.requests) + [Request.UploadFile(localPath, containerPath)]
    {
      if !persistent {
        return Str(NOT_PERSISTENT);
      }
      v := runner.Serve(Request.UploadFile(localPath, containerPath));
    }

    /** `download_file(container_path, local_path)`. */
    method DownloadFile(containerPath: string, localPath: Option<string>) returns (v: Value)
      modifies runner
      ensures !persistent ==> v == Str(NOT_PERSISTENT) && runner.requests == old(runner.requests)
      ensures persistent ==> v == runner.serve(old(runner.requests), Request.DownloadFile(containerPath, localPath))
                             && runner.requests == old(runner.requests) + [Request.DownloadFile(containerPath, localPath)]
    {
      if !persistent {
        return Str(NOT_PERSISTENT);
      }
      v := runner.Serve(Request.DownloadFile(containerPath, localPath));
    }

    /** `list_files(directory)`. */
    method ListFiles(directory: string) returns (v: Value)
      modifies runner
      ensures !persistent ==> v == Str(NOT_PERSISTENT) && runner.requests == old(runner.requests)
      ensures persistent ==> v == runner.serve(old(runner.requests), Request.ListFiles(directory))
                             && runner.requests == old(runner.requests) + [Request.ListFiles(directory)]
    {
      if !persistent {
        return Str(NOT_PERSISTENT);
      }
      v := runner.Serve(Request.ListFiles(directory));
    }
  }
}
