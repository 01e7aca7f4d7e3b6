/** The two collaborators a `Baseline` drives, whose implementations are not
    part of this model: the chatbot and the code runner. Each is a class whose
    observable state is what the baseline reads or changes, and whose answers
    come from a fixed function of that state and of the request, so that
    every call is deterministic given what happened before it. */
module Collaborators {
  import opened Common

  /** One `ask`: the prompt sent and the reply received. */
  datatype Exchange = Exchange(prompt: string, reply: string)

  /** The prompts of a conversation, in order. */
  function Prompts(history: seq<Exchange>): (ps: seq<string>)
    ensures |ps| == |history|
    ensures forall k :: 0 <= k < |history| ==> ps[k] == history[k].prompt
  {
    seq(|history|, k requires 0 <= k < |history| => history[k].prompt)
  }

  /** A chatbot: `conversation_history` holds the exchanges since the last
      `delete_history`; the reply to a prompt is `respond` applied to that
      history and the prompt. */
  class Chatbot {
    var history: seq<Exchange>
    const respond: (seq<Exchange>, string) -> string

    constructor(respond: (seq<Exchange>, string) -> string)
      ensures history == [] && this.respond == respond
    {
      history := [];
      this.respond := respond;
    }

    /** `delete_history()`. */
    method DeleteHistory()
      modifies this
      ensures history == []
    {
      history := [];
    }

    /** `ask(prompt)`. */
    method Ask(prompt: string) returns (reply: string)
      modifies this
      ensures reply == respond(old(history), prompt)
      ensures history == old(history) + [Exchange(prompt, reply)]
    {
      reply := respond(history, prompt);
      history := history + [Exchange(prompt, reply)];
    }
  }

  /** The requests a code runner serves. */
  datatype Request =
    | RunCode(code: string)
    | StartContainer
    | StopContainer
    | IsContainerRunning
    | UploadFile(source: string, destination: Option<string>)
    | DownloadFile(from: string, to: Option<string>)
    | ListFiles(directory: string)
    | GetVariableValue(name: string)
    | GetDefinedVariables

  /** A code runner: the requests served so far, in order. `run_code`
      answers with the printed output (`execute`), every other request with
      a value (`serve`); both may depend on all earlier requests, which is how
      a persistent session keeps its variables. */
  class CodeRunner {
    var requests: seq<Request>
    const execute: (seq<Request>, string) -> string
    const serve: (seq<Request>, Request) -> Value

    constructor(execute: (seq<Request>, string) -> string, serve: (seq<Request>, Request) -> Value)
      ensures requests == [] && this.execute == execute && this.serve == serve
    {
      requests := [];
      this.execute := execute;
      this.serve := serve;
    }

    /** `run_code(code)`. */
    method RunCode(code: string) returns (output: string)
      modifies this
      ensures output == execute(old(requests), code)
      ensures requests == old(requests) + [Request.RunCode(code)]
    {
      output := execute(requests, code);
      requests := requests + [Request.RunCode(code)];
    }

    /** Any other request. */
    method Serve(r: Request) returns (v: Value)
      requires !r.RunCode?
      modifies this
      ensures v == serve(old(requests), r)
      ensures requests == old(requests) + [r]
    {
      v := serve(requests, r);
      requests := requests + [r];
    }
  }
}
