/**
 * The single page of the web client (ai-log-ui/app/page.tsx): the state of
 * the form and of the last analysis, what one press of "Analyze Log" does to
 * it, the messages shown while waiting, and which parts of the result are
 * rendered in each view.
 *
 * The `fetch` call is not modelled; its outcome is a parameter. A decoded
 * JSON body is given as already-typed fields.
 */
module Page {
  import opened Wrappers
  import Text
  import SeverityBadge
  import TaskList

  datatype ViewMode = Pretty | Raw

  /** The fields of `parsed` the page reads. */
  datatype ParsedResult = ParsedResult(
    summary: Option<string>,
    severity: Option<string>,
    tasks: Option<seq<TaskList.Task>>,
    rootCause: Option<string>,
    probableFixes: Option<seq<string>>,
    reproductionSteps: Option<seq<string>>,
    followUpTests: Option<seq<string>>,
    confidenceScore: Option<real>,
    notes: Option<string>)

  /** `ApiResult`: the body of a successful `/explain` call. */
  datatype ApiResult = ApiResult(rawLlm: Option<string>, parsed: Option<ParsedResult>)

  /** What a `catch` receives: a `TypeError`, another `Error`, or a thrown non-error value. */
  datatype Thrown = TypeError(message: string) | OtherError(message: string) | NotAnError

  /**
   * What `response.json()` does with a body: it throws, it yields `null`, or
   * it yields an object, read here both as an error payload (`detail`) and
   * as an `ApiResult`.
   */
  datatype Body = NotJson(thrown: Thrown) | JsonNull | JsonValue(detail: Option<string>, data: ApiResult)

  datatype Response = Response(status: nat, statusText: string, body: Body)

  /** The outcome of `fetch`: it threw, or it produced a response. */
  datatype FetchOutcome = Threw(thrown: Thrown) | Answered(response: Response)

  /** The component's state (the loading message is derived, see `LoadingMessage`). */
  datatype PageState = PageState(
    log: string, context: string, loading: bool,
    result: Option<ApiResult>, error: Option<string>, viewMode: ViewMode)

  const InitialState: PageState := PageState("", "", false, None, None, Pretty)

  // ---------------------------------------------------------------------
  // Error messages

  const UnknownServerError: string := "An unknown error occurred on the server."
  const ServerDownMessage: string := "The server did not respond." + " Please check if it is running."
  const UnexpectedPrefix: string := "An unexpected error occurred: "
  const UnexpectedMessage: string := "An unexpected error occurred."
  const HttpErrorPrefix: string := "Error: "
  const Separator: string := " - "

  /** `response.ok`: a status in 200-299. */
  predicate IsOk(status: nat) {
    200 <= status <= 299
  }

  /**
   * The message for a response that is not ok: the status, then the body's
   * truthy `detail`, a fixed text when the body has none, or the status
   * text when the body is not JSON or is `null` (reading `.detail` of `null`
   * throws into the same `catch`).
   */
  function HttpErrorMessage(r: Response): (m: string)
    ensures r.body.JsonValue? && Text.Truthy(r.body.detail) ==>
      m == HttpErrorPrefix + Text.NatToString(r.status) + Separator + r.body.detail.value
    ensures r.body.JsonValue? && !Text.Truthy(r.body.detail) ==>
      m == HttpErrorPrefix + Text.NatToString(r.status) + Separator + UnknownServerError
    ensures !r.body.JsonValue? ==>
      m == HttpErrorPrefix + Text.NatToString(r.status) + Separator + r.statusText
  {
    var reason :=
      match r.body
      case JsonValue(detail, _) => if Text.Truthy(detail) then detail.value else UnknownServerError
      case _ => r.statusText;
    HttpErrorPrefix + Text.NatToString(r.status) + Separator + reason
  }

  /** The message for an exception caught around the whole request. */
  function ExceptionMessage(t: Thrown): (m: string)
    ensures t.TypeError? && Text.Contains(t.message, "fetch") ==> m == ServerDownMessage
    ensures (t.TypeError? && !Text.Contains(t.message, "fetch")) || t.OtherError? ==> m == UnexpectedPrefix + t.message
    ensures t.NotAnError? ==> m == UnexpectedMessage
  {
    match t
    case TypeError(msg) => if Text.Contains(msg, "fetch") then ServerDownMessage else UnexpectedPrefix + msg
    case OtherError(msg) => UnexpectedPrefix + msg
    case NotAnError => UnexpectedMessage
  }

  /** The longest prefix of `s` made of decimal digits. */
  function DigitPrefix(s: string): (d: string)
    ensures |d| <= |s| && d == s[..|d|]
    ensures forall k :: 0 <= k < |d| ==> Text.IsDigit(d[k])
  {
    if s != [] && Text.IsDigit(s[0]) then [s[0]] + DigitPrefix(s[1..]) else []
  }

  /** The status a reader recovers from an HTTP error message: the number after the prefix. */
  function StatusOf(m: string): Option<nat> {
    if |m| >= |HttpErrorPrefix| && m[..|HttpErrorPrefix|] == HttpErrorPrefix then
      Some(Text.DecimalValue(DigitPrefix(m[|HttpErrorPrefix|..])))
    else None
  }

  lemma {:induction false} DigitPrefixOfNumeral(d: string, rest: string)
    requires forall k :: 0 <= k < |d| ==> Text.IsDigit(d[k])
    requires rest != [] && !Text.IsDigit(rest[0])
    ensures DigitPrefix(d + rest) == d
    decreases |d|
  {
    if d == [] {
      assert d + rest == rest;
    } else {
      assert (d + rest)[1..] == d[1..] + rest;
      DigitPrefixOfNumeral(d[1..], rest);
    }
  }

  /** Every HTTP error message names the response's status, which can be read back from it. */
  lemma HttpErrorNamesStatus(r: Response)
    ensures StatusOf(HttpErrorMessage(r)) == Some(r.status)
  {
    var m := HttpErrorMessage(r);
    var numeral := Text.NatToString(r.status);
    var reason :=
      match r.body
      case JsonValue(detail, _) => if Text.Truthy(detail) then detail.value else UnknownServerError
      case _ => r.statusText;
    var tail := Separator + reason;
    assert m == HttpErrorPrefix + numeral + Separator + reason;
    assert m == HttpErrorPrefix + (numeral + tail);
    assert m[..|HttpErrorPrefix|] == HttpErrorPrefix;
    assert m[|HttpErrorPrefix|..] == numeral + tail;
    assert tail[0] == ' ';
    DigitPrefixOfNumeral(numeral, tail);
    Text.DecimalRoundTrip(r.status);
  }

  /** A caught exception never produces a message that looks like an HTTP error. */
  lemma ExceptionIsNotHttpError(t: Thrown, r: Response)
    ensures StatusOf(ExceptionMessage(t)) == None
    ensures ExceptionMessage(t) != HttpErrorMessage(r)
  {
    var m := ExceptionMessage(t);
    assert m[0] == 'T' || m[0] == 'A' by {
      if t.NotAnError? {
        assert m == UnexpectedMessage;
        assert m[0] == 'A';
      } else if t.TypeError? && Text.Contains(t.message, "fetch") {
        assert m == ServerDownMessage;
        assert m[0] == 'T';
      } else {
        assert m == UnexpectedPrefix + t.message;
        assert m[0] == UnexpectedPrefix[0];
        assert m[0] == 'A';
      }
    }
    assert m[..|HttpErrorPrefix|][0] == m[0];
    HttpErrorNamesStatus(r);
  }

  /** Every error the page can set is non-empty, so the alert is always shown. */
  lemma ErrorMessagesNonEmpty(t: Thrown, r: Response)
    ensures ExceptionMessage(t) != "" && HttpErrorMessage(r) != ""
  {
  }

  // ---------------------------------------------------------------------
  // The analyze lifecycle

  /** The synchronous start of `analyze()`: loading on, result and error cleared. */
  function Begin(s: PageState): (r: PageState)
    ensures r.loading && r.result.None? && r.error.None?
    ensures r.log == s.log && r.context == s.context && r.viewMode == s.viewMode
  {
    s.(loading := true, result := None, error := None)
  }

  /** The response was ok and its body decoded to an object. */
  predicate Delivered(o: FetchOutcome) {
    o.Answered? && IsOk(o.response.status) && o.response.body.JsonValue?
  }

  /** The response was ok and its body was the JSON `null`. */
  predicate DeliveredNull(o: FetchOutcome) {
    o.Answered? && IsOk(o.response.status) && o.response.body.JsonNull?
  }

  /** The rest of `analyze()` once `fetch` settled with `o`, `finally` included. */
  function Finish(s: PageState, o: FetchOutcome): (r: PageState)
    ensures !r.loading
    ensures r.log == s.log && r.context == s.context && r.viewMode == s.viewMode
  {
    var done := s.(loading := false);
    match o
    case Threw(t) => done.(error := Some(ExceptionMessage(t)))
    case Answered(resp) =>
      if !IsOk(resp.status) then done.(error := Some(HttpErrorMessage(resp)))
      else
        match resp.body
        case NotJson(t) => done.(error := Some(ExceptionMessage(t)))
        case JsonNull => done.(result := None)
        case JsonValue(_, data) => done.(result := Some(data))
  }

  /** One press of "Analyze Log" whose request settles with `o`. */
  function Analyze(s: PageState, o: FetchOutcome): (r: PageState)
    ensures !r.loading
    ensures r.log == s.log && r.context == s.context && r.viewMode == s.viewMode
    // A result is shown exactly when an ok response carried an object, and it is that object.
    ensures r.result.Some? <==> Delivered(o)
    ensures Delivered(o) ==> r.result == Some(o.response.body.data)
    // An error is shown exactly when the request did not deliver a JSON value.
    ensures r.error.Some? <==> !Delivered(o) && !DeliveredNull(o)
    ensures o.Threw? ==> r.error == Some(ExceptionMessage(o.thrown))
    ensures o.Answered? && !IsOk(o.response.status) ==> r.error == Some(HttpErrorMessage(o.response))
    ensures o.Answered? && IsOk(o.response.status) && o.response.body.NotJson? ==>
      r.error == Some(ExceptionMessage(o.response.body.thrown))
    // Result and error never appear together.
    ensures !(r.result.Some? && r.error.Some?)
  {
    Finish(Begin(s), o)
  }

  /** An ok `null` body leaves the page with neither a result nor an error. */
  lemma NullBodyShowsNothing(s: PageState, o: FetchOutcome)
    requires DeliveredNull(o)
    ensures Analyze(s, o).result.None? && Analyze(s, o).error.None? && !Analyze(s, o).loading
  {
  }

  /** The outcome of the previous analysis never leaks into the next one. */
  lemma AnalyzeForgetsPrevious(s1: PageState, s2: PageState, o: FetchOutcome)
    requires s1.log == s2.log && s1.context == s2.context && s1.viewMode == s2.viewMode
    ensures Analyze(s1, o) == Analyze(s2, o)
  {
  }

  /** `disabled={loading || !log}`. */
  predicate AnalyzeDisabled(s: PageState) {
    s.loading || s.log == ""
  }

  /** While a request is in flight the button is disabled; afterwards it is enabled again unless the log is empty. */
  lemma ButtonLifecycle(s: PageState, o: FetchOutcome)
    ensures AnalyzeDisabled(Begin(s))
    ensures AnalyzeDisabled(Analyze(s, o)) <==> s.log == ""
  {
  }

  /** The button tests only for an empty log: a whitespace-only log can be sent. */
  lemma WhitespaceLogEnabled(s: PageState)
    requires !s.loading && s.log != "" && Text.AllSpace(s.log)
    ensures !AnalyzeDisabled(s)
  {
  }

  // ---------------------------------------------------------------------
  // Loading messages

  const LoadingMessages: seq<string> := [
    "Processing your log...",
    "Analyzing log patterns...",
    "Consulting AI model...",
    "Generating explanation...",
    "Almost ready..."
  ]

  /** One interval tick: `(messageIndex + 1) % messages.length`. */
  function NextMessageIndex(i: nat): (j: nat)
    ensures j < |LoadingMessages|
  {
    (i + 1) % |LoadingMessages|
  }

  /** The message index after `ticks` ticks since loading began (the effect starts at 0). */
  function MessageIndexAfter(ticks: nat): nat {
    if ticks == 0 then 0 else NextMessageIndex(MessageIndexAfter(ticks - 1))
  }

  /** The index cycles through the five messages: after `t` ticks it is `t mod 5`. */
  lemma {:induction false} MessageIndexCycles(ticks: nat)
    ensures MessageIndexAfter(ticks) == ticks % |LoadingMessages|
    decreases ticks
  {
    if ticks > 0 {
      MessageIndexCycles(ticks - 1);
    }
  }

  function LoadingMessage(ticks: nat): (m: string)
    ensures m == LoadingMessages[ticks % |LoadingMessages|]
  {
    MessageIndexCycles(ticks);
    LoadingMessages[MessageIndexAfter(ticks)]
  }

  /** Every message comes back after five ticks, and the first one shows at the start of each cycle. */
  lemma LoadingMessagesRepeat(ticks: nat)
    ensures LoadingMessage(ticks + |LoadingMessages|) == LoadingMessage(ticks)
    ensures LoadingMessage(|LoadingMessages| * ticks) == "Processing your log..."
  {
  }

  // ---------------------------------------------------------------------
  // View toggle

  function ToggleView(m: ViewMode): (r: ViewMode)
    ensures r != m
  {
    if m == Pretty then Raw else Pretty
  }

  /** The toggle's caption names the view it switches to. */
  function ToggleCaption(m: ViewMode): (c: string)
    ensures c == "Show Raw JSON" <==> ToggleView(m) == Raw
    ensures c == "Show Pretty View" <==> ToggleView(m) == Pretty
  {
    if m == Pretty then "Show Raw JSON" else "Show Pretty View"
  }

  lemma ToggleViewTwice(m: ViewMode)
    ensures ToggleView(ToggleView(m)) == m
  {
  }

  // ---------------------------------------------------------------------
  // The pretty view of a parsed result

  /** The sections of the structured card, in the order the page lays them out. */
  datatype Section =
    | SummarySection(text: string)
    | RootCauseSection(text: string)
    | FixesSection(items: seq<string>)
    | SeveritySection(badge: SeverityBadge.Badge)
    | StepsSection(items: seq<string>)
    | TestsSection(items: seq<string>)
    | ConfidenceSection(percent: real)
    | NotesSection(text: string)

  const SectionCount: nat := 8

  function Rank(sec: Section): (k: nat)
    ensures k < SectionCount
  {
    match sec
    case SummarySection(_) => 0
    case RootCauseSection(_) => 1
    case FixesSection(_) => 2
    case SeveritySection(_) => 3
    case StepsSection(_) => 4
    case TestsSection(_) => 5
    case ConfidenceSection(_) => 6
    case NotesSection(_) => 7
  }

  /** A list field is shown when it is present and non-empty. */
  predicate NonEmptyList(xs: Option<seq<string>>) {
    xs.Some? && xs.value != []
  }

  /** The condition under which the section of rank `k` is rendered. */
  predicate Shows(p: ParsedResult, k: nat) {
    if k == 0 then Text.Truthy(p.summary)
    else if k == 1 then Text.Truthy(p.rootCause)
    else if k == 2 then NonEmptyList(p.probableFixes)
    else if k == 3 then Text.Truthy(p.severity)
    else if k == 4 then NonEmptyList(p.reproductionSteps)
    else if k == 5 then NonEmptyList(p.followUpTests)
    else if k == 6 then p.confidenceScore.Some?
    else if k == 7 then Text.Truthy(p.notes)
    else false
  }

  /** A section shows the field of `p` it stands for, unchanged (the score unclamped). */
  predicate Describes(p: ParsedResult, sec: Section) {
    match sec
    case SummarySection(t) => p.summary == Some(t)
    case RootCauseSection(t) => p.rootCause == Some(t)
    case FixesSection(items) => p.probableFixes == Some(items)
    case SeveritySection(b) => p.severity.Some? && b == SeverityBadge.Render(p.severity.value)
    case StepsSection(items) => p.reproductionSteps == Some(items)
    case TestsSection(items) => p.followUpTests == Some(items)
    case ConfidenceSection(x) => p.confidenceScore == Some(x)
    case NotesSection(t) => p.notes == Some(t)
  }

  /** The section of rank `k`. */
  function SectionAt(p: ParsedResult, k: nat): (sec: Section)
    requires k < SectionCount && Shows(p, k)
    ensures Rank(sec) == k && Describes(p, sec)
  {
    if k == 0 then SummarySection(p.summary.value)
    else if k == 1 then RootCauseSection(p.rootCause.value)
    else if k == 2 then FixesSection(p.probableFixes.value)
    else if k == 3 then SeveritySection(SeverityBadge.Render(p.severity.value))
    else if k == 4 then StepsSection(p.reproductionSteps.value)
    else if k == 5 then TestsSection(p.followUpTests.value)
    else if k == 6 then ConfidenceSection(p.confidenceScore.value)
    else NotesSection(p.notes.value)
  }

  function Ranks(r: seq<Section>): seq<nat> {
    seq(|r|, n requires 0 <= n < |r| => Rank(r[n]))
  }

  predicate Ascending(r: seq<Section>) {
    forall m, n :: 0 <= m < n < |r| ==> Rank(r[m]) < Rank(r[n])
  }

  /** The contract of `SectionsFrom(p, k)`. */
  predicate SectionsFor(p: ParsedResult, k: nat, r: seq<Section>) {
    && (forall n :: 0 <= n < |r| ==> k <= Rank(r[n]) && Shows(p, Rank(r[n])) && Describes(p, r[n]))
    && Ascending(r)
    && (forall j :: k <= j < SectionCount && Shows(p, j) ==> j in Ranks(r))
  }

  /** The sections of rank `k` and above whose condition holds. */
  function SectionsFrom(p: ParsedResult, k: nat): (r: seq<Section>)
    requires k <= SectionCount
    ensures SectionsFor(p, k, r)
    decreases SectionCount - k
  {
    if k == SectionCount then []
    else
      var rest := SectionsFrom(p, k + 1);
      var r := if Shows(p, k) then [SectionAt(p, k)] + rest else rest;
      SectionsForCons(p, k, rest, r);
      r
  }

  lemma SectionsForCons(p: ParsedResult, k: nat, rest: seq<Section>, r: seq<Section>)
    requires k < SectionCount
    requires SectionsFor(p, k + 1, rest)
    requires r == if Shows(p, k) then [SectionAt(p, k)] + rest else rest
    ensures SectionsFor(p, k, r)
  {
    if Shows(p, k) {
      assert Ranks(r) == [k] + Ranks(rest);
      forall n | 0 <= n < |r|
        ensures k <= Rank(r[n]) && Shows(p, Rank(r[n])) && Describes(p, r[n])
      {
        if n > 0 {
          assert r[n] == rest[n - 1];
        }
      }
    }
  }

  /** The structured card: every section whose condition holds, in layout order, each showing its field. */
  function PrettySections(p: ParsedResult): (r: seq<Section>)
    ensures Ascending(r)
    ensures forall n :: 0 <= n < |r| ==> Describes(p, r[n])
    ensures forall k :: 0 <= k < SectionCount ==> (Shows(p, k) <==> k in Ranks(r))
  {
    SectionsFrom(p, 0)
  }

  /** A section that is shown has non-empty content, except the score, which only needs to be a number. */
  lemma ShownSectionsNonEmpty(p: ParsedResult, n: nat)
    requires n < |PrettySections(p)|
    ensures var sec := PrettySections(p)[n];
      (sec.SummarySection? || sec.RootCauseSection? || sec.NotesSection? ==> sec.text != "") &&
      (sec.FixesSection? || sec.StepsSection? || sec.TestsSection? ==> sec.items != [])
  {
    var r := PrettySections(p);
    assert Rank(r[n]) in Ranks(r);
  }

  // ---------------------------------------------------------------------
  // The result area

  /** The body of the "Log Analysis" card. */
  datatype CardContent = Structured(sections: seq<Section>) | Explanation(text: string)

  /** The collapsible technical details: raw text, the raw copy value, and the structured data when parsed. */
  datatype TechnicalDetails = TechnicalDetails(rawText: string, copyRaw: string, structured: Option<ParsedResult>)

  datatype ResultView =
    | RawJsonView(json: Option<ParsedResult>)
    | PrettyView(card: CardContent, tasks: TaskList.TaskListView, details: TechnicalDetails)

  const NoExplanation: string := "No explanation available."
  const NotAvailable: string := "N/A"

  /** The result area for `result` in view `mode`, with the task list's own state. */
  function RenderResult(result: ApiResult, mode: ViewMode, expanded: map<string, bool>, copiedId: Option<string>): (v: ResultView)
    ensures v.RawJsonView? <==> mode == Raw
    ensures v.RawJsonView? ==> v.json == result.parsed
    // The structured card when the result was parsed, the model's text otherwise.
    ensures v.PrettyView? ==> (v.card.Structured? <==> result.parsed.Some?)
    ensures v.PrettyView? && v.card.Structured? ==> v.card.sections == PrettySections(result.parsed.value)
    ensures v.PrettyView? && v.card.Explanation? ==>
      v.card.text == if Text.Truthy(result.rawLlm) then result.rawLlm.value else NoExplanation
    // The task list gets the parsed tasks, or an empty list.
    ensures v.PrettyView? ==> v.tasks == TaskList.Render(
      Some(if result.parsed.Some? && result.parsed.value.tasks.Some? then result.parsed.value.tasks.value else []),
      expanded, copiedId)
    ensures v.PrettyView? ==>
      v.details.rawText == (if Text.Truthy(result.rawLlm) then result.rawLlm.value else NotAvailable) &&
      v.details.copyRaw == result.rawLlm.GetOr("") &&
      v.details.structured == result.parsed
  {
    if mode == Raw then RawJsonView(result.parsed)
    else
      var card := match result.parsed
        case Some(p) => Structured(PrettySections(p))
        case None => Explanation(if Text.Truthy(result.rawLlm) then result.rawLlm.value else NoExplanation);
      var tasks := match result.parsed
        case Some(p) => p.tasks.GetOr([])
        case None => [];
      PrettyView(card, TaskList.Render(Some(tasks), expanded, copiedId),
                 TechnicalDetails(if Text.Truthy(result.rawLlm) then result.rawLlm.value else NotAvailable,
                                  result.rawLlm.GetOr(""), result.parsed))
  }

  /** A result without tasks shows the task list's placeholder. */
  lemma NoTasksShowsPlaceholder(result: ApiResult, expanded: map<string, bool>, copiedId: Option<string>)
    requires result.parsed.None? || result.parsed.value.tasks.None?
    ensures RenderResult(result, Pretty, expanded, copiedId).tasks == TaskList.Placeholder(TaskList.NoTasksMessage)
  {
  }

  /** Everything the page shows below the button. */
  datatype Screen = Screen(
    analyzeDisabled: bool,
    toggleCaption: Option<string>,
    spinner: Option<string>,
    errorAlert: Option<string>,
    results: Option<ResultView>)

  /** The page in state `s`, `ticks` loading ticks after the request started. */
  function RenderPage(s: PageState, ticks: nat, expanded: map<string, bool>, copiedId: Option<string>): (v: Screen)
    ensures v.analyzeDisabled <==> AnalyzeDisabled(s)
    ensures v.toggleCaption.Some? <==> s.result.Some?
    ensures v.toggleCaption.Some? ==> v.toggleCaption.value == ToggleCaption(s.viewMode)
    ensures v.spinner.Some? <==> s.loading
    ensures v.spinner.Some? ==> v.spinner.value == LoadingMessages[ticks % |LoadingMessages|]
    ensures v.errorAlert.Some? <==> Text.Truthy(s.error)
    ensures v.errorAlert.Some? ==> v.errorAlert == s.error
    ensures v.results.Some? <==> s.result.Some?
    ensures v.results.Some? ==> v.results.value == RenderResult(s.result.value, s.viewMode, expanded, copiedId)
  {
    Screen(
      AnalyzeDisabled(s),
      if s.result.Some? then Some(ToggleCaption(s.viewMode)) else None,
      if s.loading then Some(LoadingMessage(ticks)) else None,
      if Text.Truthy(s.error) then s.error else None,
      if s.result.Some? then Some(RenderResult(s.result.value, s.viewMode, expanded, copiedId)) else None)
  }

  /** Right after the press: the spinner with the first message, and nothing else. */
  lemma ScreenWhileLoading(s: PageState, expanded: map<string, bool>, copiedId: Option<string>)
    ensures var v := RenderPage(Begin(s), 0, expanded, copiedId);
      v.analyzeDisabled && v.spinner == Some("Processing your log...") &&
      v.errorAlert.None? && v.results.None? && v.toggleCaption.None?
  {
  }

  /** After the request settles: no spinner, and the error alert whenever the request failed. */
  lemma ScreenAfterAnalyze(s: PageState, o: FetchOutcome, ticks: nat, expanded: map<string, bool>, copiedId: Option<string>)
    ensures var v := RenderPage(Analyze(s, o), ticks, expanded, copiedId);
      v.spinner.None? &&
      (v.errorAlert.Some? <==> !Delivered(o) && !DeliveredNull(o)) &&
      (v.results.Some? <==> Delivered(o))
  {
    var r := Analyze(s, o);
    if r.error.Some? {
      match o
      case Threw(t) => ErrorMessagesNonEmpty(t, Response(0, "", JsonNull));
      case Answered(resp) =>
        ErrorMessagesNonEmpty(if resp.body.NotJson? then resp.body.thrown else NotAnError, resp);
    }
  }
}
