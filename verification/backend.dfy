/**
 * The HTTP handlers of the backend (backend/app/main.py): `health`, and
 * `explain_log`, which validates the request, asks the language model and
 * assembles the response.
 *
 * The chat-completion call is a parameter `llm` from the messages sent to
 * what came back; `json.loads` is the parameter `parse` of JsonExtract.
 */
module Backend {
  import opened Wrappers
  import Text
  import Prompts
  import JsonExtract

  /** `LogRequest` (backend/app/schemas.py). */
  datatype LogRequest = LogRequest(rawLog: string, context: Option<string>)

  datatype Role = SystemRole | UserRole

  datatype ChatMessage = ChatMessage(role: Role, content: string)

  /**
   * What the chat-completion call did: it raised (with `str(e)`), or it
   * returned its choices, each with a possibly missing message content.
   */
  datatype Completion = Raised(message: string) | Returned(choices: seq<Option<string>>)

  /** `ExplainerResponse` (backend/app/schemas.py). */
  datatype ExplainerResponse<J> = ExplainerResponse(rawLlm: string, parsed: Option<J>)

  /** An `HTTPException` raised by the handler. */
  datatype HttpException = HttpException(statusCode: nat, detail: string)

  /** What a handler call ends in: a response body, or a raised HTTP error. */
  datatype Reply<J> = Ok(response: ExplainerResponse<J>) | Err(error: HttpException)

  const EmptyLogDetail: string := "raw_log cannot be empty"
  const ApiErrorPrefix: string := "API request error: "
  /** `str(e)` of the IndexError from `choices[0]` on an empty list. */
  const NoChoiceError: string := "list index out of range"
  /** `str(e)` of the AttributeError from calling `.strip()` on a `None` content. */
  const NoContentError: string := "'NoneType' object has no attribute 'strip'"

  /** `health()`. */
  function Health(): (r: map<string, string>)
    ensures r.Keys == {"status"} && r["status"] == "ok"
  {
    map["status" := "ok"]
  }

  /** The raw log is rejected when it is empty or whitespace only. */
  predicate IsBlank(rawLog: string) {
    rawLog == "" || Text.AllSpace(rawLog)
  }

  /** `not req.raw_log or not req.raw_log.strip()` is exactly `IsBlank`. */
  lemma BlankIffStripsToNothing(rawLog: string)
    ensures IsBlank(rawLog) <==> rawLog == "" || Text.Strip(rawLog) == ""
  {
  }

  /** The two messages sent to the model: the system prompt, then the user prompt. */
  function Messages(req: LogRequest): seq<ChatMessage> {
    [ChatMessage(SystemRole, Prompts.SystemPrompt),
     ChatMessage(UserRole, Prompts.BuildLogPrompt(req.rawLog, req.context))]
  }

  /**
   * `completion.choices[0].message.content.strip()` inside the `try`: the
   * stripped text, or the text of the exception raised on the way.
   */
  function ReadContent(c: Completion): (r: Result<string, string>)
    ensures c.Raised? ==> r == Failure(c.message)
    ensures c.Returned? && c.choices == [] ==> r == Failure(NoChoiceError)
    ensures c.Returned? && c.choices != [] && c.choices[0].None? ==> r == Failure(NoContentError)
    ensures r.Success? <==> c.Returned? && c.choices != [] && c.choices[0].Some?
    ensures r.Success? ==> r.value == Text.Strip(c.choices[0].value)
    // What is read is already stripped: no leading or trailing whitespace is left.
    ensures r.Success? ==> Text.Strip(r.value) == r.value
  {
    match c
    case Raised(e) => Failure(e)
    case Returned(choices) =>
      if choices == [] then Failure(NoChoiceError)
      else match choices[0]
        case None => Failure(NoContentError)
        case Some(content) =>
          Text.StripIdempotent(content);
          Success(Text.Strip(content))
  }

  /** `explain_log(req)`. */
  function ExplainLog<J>(req: LogRequest, llm: seq<ChatMessage> -> Completion, parse: string -> Option<J>): (r: Reply<J>)
    // A blank log is refused with 400, without consulting the model.
    ensures IsBlank(req.rawLog) <==> r == Err(HttpException(400, EmptyLogDetail))
    // Any failure of the model call becomes a 500 carrying the exception text.
    ensures r.Err? && r.error.statusCode != 400 ==>
      r.error.statusCode == 500 &&
      ReadContent(llm(Messages(req))).Failure? &&
      r.error.detail == ApiErrorPrefix + ReadContent(llm(Messages(req))).error
    ensures r.Err? ==> r.error.statusCode == 400 || r.error.statusCode == 500
    // Success: the model answered the prompt built from the unstripped log.
    ensures r.Ok? <==> !IsBlank(req.rawLog) && ReadContent(llm(Messages(req))).Success?
    ensures r.Ok? ==>
      r.response.rawLlm == ReadContent(llm(Messages(req))).value &&
      Text.Strip(r.response.rawLlm) == r.response.rawLlm &&
      r.response.parsed == JsonExtract.ExtractJson(r.response.rawLlm, parse)
  {
    if IsBlank(req.rawLog) then Err(HttpException(400, EmptyLogDetail))
    else
      match ReadContent(llm(Messages(req)))
      case Failure(e) => Err(HttpException(500, ApiErrorPrefix + e))
      case Success(text) =>
        Ok(ExplainerResponse(text, JsonExtract.ExtractJson(text, parse)))
  }

  /** The blank-log answer does not depend on the model at all. */
  lemma BlankLogIgnoresModel<J>(req: LogRequest, llm1: seq<ChatMessage> -> Completion,
                                llm2: seq<ChatMessage> -> Completion, parse: string -> Option<J>)
    requires IsBlank(req.rawLog)
    ensures ExplainLog(req, llm1, parse) == ExplainLog(req, llm2, parse)
  {
  }

  /** The user prompt carries the log exactly as received, surrounding whitespace included. */
  lemma PromptCarriesUnstrippedLog(req: LogRequest)
    ensures Prompts.LogOf(Messages(req)[1].content, req.context) == req.rawLog
  {
    Prompts.LogRoundTrip(req.rawLog, req.context);
  }
}
