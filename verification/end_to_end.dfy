/**
 * The page and the backend together: the page's request reaches
 * `explain_log`, and the handler's reply comes back as the HTTP response
 * the page reads. What the user ends up seeing for a blank log, a failing
 * model and a successful answer.
 */
module EndToEnd {
  import opened Wrappers
  import Text
  import JsonExtract
  import Backend
  import Page
  import Prompts

  /**
   * The JSON body the page posts to `/explain`, `{raw_log: log, context}`,
   * as the backend reads it: `context` is always sent, as a string, possibly empty.
   */
  function RequestFor(s: Page.PageState): (q: Backend.LogRequest)
    ensures q.rawLog == s.log && q.context == Some(s.context)
  {
    Backend.LogRequest(s.log, Some(s.context))
  }

  /**
   * The log typed into the page reaches the model verbatim, untrimmed; an
   * empty context field reaches it as no context at all.
   */
  lemma PageLogReachesModel(s: Page.PageState)
    ensures Backend.Messages(RequestFor(s))[1].content == Prompts.BuildLogPrompt(s.log, Some(s.context))
    ensures Prompts.LogOf(Backend.Messages(RequestFor(s))[1].content, Some(s.context)) == s.log
    ensures s.context == "" ==> Backend.Messages(RequestFor(s)) == Backend.Messages(Backend.LogRequest(s.log, None))
  {
    Backend.PromptCarriesUnstrippedLog(RequestFor(s));
    if s.context == "" {
      Prompts.EmptyContextIsNoContext(s.log);
    }
  }

  /**
   * The handler's reply as an HTTP response: a response body is sent with
   * status 200, a raised `HTTPException` as its status with `{"detail": ...}`.
   * `decode` reads a parsed JSON object as the page's `ParsedResult`;
   * `reason` is the status text of a code.
   */
  function ToResponse<J>(reply: Backend.Reply<J>, decode: J -> Page.ParsedResult, reason: nat -> string): (r: Page.Response)
    ensures reply.Ok? ==> Page.IsOk(r.status) && r.body.JsonValue?
    ensures reply.Ok? ==> r.body.data.rawLlm == Some(reply.response.rawLlm)
    ensures reply.Ok? ==> (r.body.data.parsed.Some? <==> reply.response.parsed.Some?)
    ensures reply.Ok? && reply.response.parsed.Some? ==> r.body.data.parsed == Some(decode(reply.response.parsed.value))
    ensures reply.Err? ==> r.status == reply.error.statusCode && r.body == Page.JsonValue(Some(reply.error.detail), Page.ApiResult(None, None))
  {
    match reply
    case Ok(resp) =>
      var parsed := match resp.parsed case Some(j) => Some(decode(j)) case None => None;
      Page.Response(200, reason(200), Page.JsonValue(None, Page.ApiResult(Some(resp.rawLlm), parsed)))
    case Err(e) =>
      Page.Response(e.statusCode, reason(e.statusCode), Page.JsonValue(Some(e.detail), Page.ApiResult(None, None)))
  }

  /** The page after pressing "Analyze Log" against the backend with model `llm`. */
  function RoundTrip<J>(s: Page.PageState, llm: seq<Backend.ChatMessage> -> Backend.Completion,
                        parse: string -> Option<J>, decode: J -> Page.ParsedResult, reason: nat -> string): Page.PageState
  {
    Page.Analyze(s, Page.Answered(ToResponse(Backend.ExplainLog(RequestFor(s), llm, parse), decode, reason)))
  }

  /**
   * A whitespace-only log gets past the button, which only refuses an empty
   * one, and the backend's refusal is shown as the error.
   */
  lemma WhitespaceLogRefused<J>(s: Page.PageState, llm: seq<Backend.ChatMessage> -> Backend.Completion,
                                parse: string -> Option<J>, decode: J -> Page.ParsedResult, reason: nat -> string)
    requires !s.loading && s.log != "" && Text.AllSpace(s.log)
    ensures !Page.AnalyzeDisabled(s)
    ensures RoundTrip(s, llm, parse, decode, reason).error ==
      Some(Page.HttpErrorPrefix + "400" + Page.Separator + Backend.EmptyLogDetail)
    ensures RoundTrip(s, llm, parse, decode, reason).result.None?
  {
    assert Backend.IsBlank(s.log);
    var reply := Backend.ExplainLog(RequestFor(s), llm, parse);
    assert reply == Backend.Err(Backend.HttpException(400, Backend.EmptyLogDetail));
    var resp := ToResponse(reply, decode, reason);
    assert resp.body.detail == Some(Backend.EmptyLogDetail);
    assert Text.NatToString(400) == "400" by {
      assert Text.NatToString(4) == "4";
      assert Text.NatToString(40) == "40";
    }
  }

  /** A failing model call is shown as a 500 that carries the exception text. */
  lemma ModelFailureShown<J>(s: Page.PageState, llm: seq<Backend.ChatMessage> -> Backend.Completion,
                             parse: string -> Option<J>, decode: J -> Page.ParsedResult, reason: nat -> string, msg: string)
    requires !Backend.IsBlank(s.log)
    requires llm(Backend.Messages(RequestFor(s))) == Backend.Raised(msg)
    ensures RoundTrip(s, llm, parse, decode, reason).error ==
      Some(Page.HttpErrorPrefix + "500" + Page.Separator + (Backend.ApiErrorPrefix + msg))
    ensures RoundTrip(s, llm, parse, decode, reason).result.None?
  {
    var detail := Backend.ApiErrorPrefix + msg;
    assert Backend.ReadContent(llm(Backend.Messages(RequestFor(s)))) == Failure(msg);
    var reply := Backend.ExplainLog(RequestFor(s), llm, parse);
    assert reply == Backend.Err(Backend.HttpException(500, detail));
    var resp := ToResponse(reply, decode, reason);
    assert resp == Page.Response(500, reason(500), Page.JsonValue(Some(detail), Page.ApiResult(None, None)));
    assert Text.Truthy(resp.body.detail) by {
      assert detail[0] == 'A';
    }
    assert Text.NatToString(500) == "500" by {
      assert Text.NatToString(5) == "5";
      assert Text.NatToString(50) == "50";
    }
    assert !Page.IsOk(500);
    assert Page.HttpErrorMessage(resp) == Page.HttpErrorPrefix + "500" + Page.Separator + detail;
    assert RoundTrip(s, llm, parse, decode, reason) == Page.Analyze(s, Page.Answered(resp));
  }

  /**
   * A model answer reaches the page as the result, with the stripped text
   * and the first JSON object found in it, and no error.
   */
  lemma AnswerShown<J>(s: Page.PageState, llm: seq<Backend.ChatMessage> -> Backend.Completion,
                       parse: string -> Option<J>, decode: J -> Page.ParsedResult, reason: nat -> string, content: string)
    requires !Backend.IsBlank(s.log)
    requires llm(Backend.Messages(RequestFor(s))).Returned?
    requires llm(Backend.Messages(RequestFor(s))).choices != []
    requires llm(Backend.Messages(RequestFor(s))).choices[0] == Some(content)
    ensures var r := RoundTrip(s, llm, parse, decode, reason);
      r.error.None? && r.result.Some? &&
      r.result.value.rawLlm == Some(Text.Strip(content)) &&
      (r.result.value.parsed.Some? <==> JsonExtract.ExtractJson(Text.Strip(content), parse).Some?)
    ensures RoundTrip(s, llm, parse, decode, reason).result.value.parsed ==
      match JsonExtract.ExtractJson(Text.Strip(content), parse)
      case Some(j) => Some(decode(j))
      case None => None
  {
  }

  /** The page shows a result exactly when the backend answered with a response body. */
  lemma ResultIffBackendOk<J>(s: Page.PageState, llm: seq<Backend.ChatMessage> -> Backend.Completion,
                              parse: string -> Option<J>, decode: J -> Page.ParsedResult, reason: nat -> string)
    ensures RoundTrip(s, llm, parse, decode, reason).result.Some? <==> Backend.ExplainLog(RequestFor(s), llm, parse).Ok?
    ensures RoundTrip(s, llm, parse, decode, reason).error.Some? <==> Backend.ExplainLog(RequestFor(s), llm, parse).Err?
  {
  }
}
