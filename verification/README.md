# AI Log Explainer, modelled in Dafny

AI Log Explainer has two parts. The first is a FastAPI backend. It takes a
pasted log and an optional context, builds a prompt and asks a chat-completion
model to explain the log. It answers with the model's text and with a JSON
object read from it: among the candidates that begin at the first `{` of the
text and end at a `}` where the brace count is back to zero, the first one
that parses. The second is a Next.js page. It posts the log
and shows the answer, either as a pretty analysis card plus a task list and
technical details, or as the raw JSON. It shows a rotating loading message
while it waits. Each kind of failure gets its own error message.

The Dafny modules follow the source files:

| module | file | models |
|---|---|---|
| `Wrappers` | `wrappers.dfy` | `Option` and `Result` |
| `Text` | `text.dfy` | ASCII `lower()`/`toLowerCase()`, Python's ASCII `strip()`, `includes`, JavaScript truthiness of an optional string, rendering a number in decimal |
| `JsonExtract` | `json_extract.dfy` | `extract_json_from_text` (backend/app/utils.py) |
| `Prompts` | `prompts.dfy` | the system prompt and `build_log_prompt` (backend/app/prompts.py) |
| `Backend` | `backend.dfy` | `health` and `explain_log` (backend/app/main.py) |
| `SeverityBadge` | `severity_badge.dfy` | `SeverityBadge.tsx` |
| `Meter` | `meter.dfy` | `Meter.tsx` |
| `Stepper` | `stepper.dfy` | `Stepper.tsx` |
| `TaskList` | `task_list.dfy` | `TaskList.tsx` |
| `LogSections` | `log_sections.dfy` | `LogSections.tsx` |
| `Page` | `page.dfy` | ai-log-ui/app/page.tsx: state, the analyze lifecycle, messages, view toggle, result rendering |
| `EndToEnd` | `end_to_end.dfy` | the page talking to the backend |

Everything outside the program is a parameter of the model:
- the JSON parser `json.loads` is `parse: string -> Option<J>`;
- the chat-completion call is `llm: seq<ChatMessage> -> Completion`;
- what `fetch` produced is a `FetchOutcome`, and what `response.json()` made of the body is a `Body`;
- reading a parsed JSON object as the page's typed result is `decode`;
- the HTTP status text of a code is `reason`.

## Model

| member | source | states |
|---|---|---|
| `Text.LowerChar` | ai-log-ui/components/ui/SeverityBadge/SeverityBadge.tsx:9 | An ASCII capital letter becomes its small letter. Every other character is unchanged. |
| `Text.LowerIdentifiesCase` | ai-log-ui/components/ui/SeverityBadge/SeverityBadge.tsx:9 | Two strings lower-case to the same string exactly when they are equal up to ASCII letter case. |
| `Text.LowerIdempotent` | ai-log-ui/components/ui/TaskList.tsx:31 | Lower-casing twice is the same as lower-casing once. |
| `Text.Strip` | backend/app/main.py:36 | `str.strip()`: the result is a contiguous slice of the input. Everything cut off is whitespace. The result neither starts nor ends with whitespace. It is empty exactly when the input is all whitespace. |
| `Text.StripIdempotent` | backend/app/main.py:57 | Stripping an already stripped text changes nothing. |
| `Text.NatToString` | ai-log-ui/app/page.tsx:90 | `${response.status}`: a non-empty string of decimal digits with no leading zero. |
| `Text.DecimalRoundTrip` | ai-log-ui/app/page.tsx:90 | Reading the rendered numeral back gives the number. |
| `Text.NatToStringInjective` | ai-log-ui/app/page.tsx:90 | Different statuses render as different numerals. |
| `JsonExtract.FindOpen` | backend/app/utils.py:11-13 | `text.find("{")`: no result exactly when there is no `{`. Otherwise it gives the position of a `{` with no `{` before it. |
| `JsonExtract.Step` | backend/app/utils.py:18-22 | A `{` pushes onto the brace stack. A `}` pops it when it is non-empty and leaves an empty stack empty. Other characters do nothing. |
| `JsonExtract.Scan` | backend/app/utils.py:16-30 | The loop finds a result exactly when some later `}` closes a candidate that the parser accepts. The result is the parse of the first such candidate. |
| `JsonExtract.ExtractJson` | backend/app/utils.py:5-30 | There is no result without a `{`. Otherwise the result is present exactly when a candidate starting at the first `{` parses, and it is the parse of the earliest one. |
| `JsonExtract.TryStarts` | backend/app/utils.py:5-10 | Running the scan from each `{` at or after a position in turn: a result exists exactly when some candidate from some such `{` is accepted. It is the first accepted candidate from the earliest `{` that has one. |
| `JsonExtract.ExtractFirstValid` | backend/app/utils.py:5-10 | The first valid JSON object promised by the docstring: present exactly when a candidate starting at any `{` parses. It is the first accepted candidate from the earliest such `{`. |
| `JsonExtract.FirstValidExtendsExtract` | backend/app/utils.py:11-30 | Whenever the extractor as written finds an object, the restarting extractor finds the same one. |
| `JsonExtract.StrayBraceNeverBalances` | backend/app/utils.py:15-23 | In `{ {"a":1}` no candidate from index 0 is ever tried, since the brace stack never empties. |
| `JsonExtract.ObjectAfterStrayBraceAccepted` | backend/app/utils.py:24-26 | In `{ {"a":1}` the slice from index 2 to the end is a balanced candidate that the parser accepts. |
| `JsonExtract.StrayBraceHidesObject` | backend/app/utils.py:5-13 | A stray `{` before the object hides it from the extractor as written, which returns nothing. The restarting extractor finds the object. |
| `JsonExtract.NoOpenBraceNoResult` | backend/app/utils.py:11-13 | Text without a `{` yields nothing, whatever the parser does. |
| `JsonExtract.ExtractIsFirstAccepted` | backend/app/utils.py:23-26 | Any candidate end that is the first one accepted gives exactly the result returned. |
| `JsonExtract.RejectedCandidateSkipped` | backend/app/utils.py:27-29 | A candidate the parser rejects does not stop the search. A result still exists exactly when a later candidate is accepted. |
| `JsonExtract.DepthIsBalance` | backend/app/utils.py:15-22 | While the stack never underflows, its height is the number of `{` minus the number of `}` read. |
| `JsonExtract.TriedIsBalanced` | backend/app/utils.py:23-24 | A candidate whose prefixes never underflow has as many `{` as `}`. |
| `JsonExtract.QuotedBraceEndsCandidate` | backend/app/utils.py:17-24 | Braces inside JSON strings are counted too: in `{"a":"}"}` the quoted `}` already ends a candidate. |
| `Prompts.BuildLogPrompt` | backend/app/prompts.py:13-27 | The prompt is, in order: the `Logs:` fence header, the log text verbatim, the closing fence, the context line (only for a truthy context), and the instruction sentence. Each part sits at its stated position, and the length is the sum of the parts. |
| `Prompts.LogRoundTrip` | backend/app/prompts.py:15-19 | For a known context, the log text can be cut back out of the prompt unchanged. |
| `Prompts.PromptInjectiveInLog` | backend/app/prompts.py:15-19 | For a fixed context, different logs give different prompts. |
| `Prompts.EmptyContextIsNoContext` | backend/app/prompts.py:21-22 | An empty context gives the same prompt as no context. |
| `Prompts.ContextAddedIffTruthy` | backend/app/prompts.py:21-22 | The prompt grows exactly when the context is truthy, and then by `"\nContext: "`, the context and a newline. |
| `Backend.Health` | backend/app/main.py:27-29 | The body is the single pair `status: ok`. |
| `Backend.BlankIffStripsToNothing` | backend/app/main.py:36 | The log is refused exactly when it is empty or strips to nothing, i.e. when it is empty or all whitespace. |
| `Backend.ReadContent` | backend/app/main.py:56-60 | `choices[0].message.content.strip()`. If the call raised, the result is its message. No choices gives the IndexError text. A missing content gives the AttributeError text. Otherwise the result is the stripped content, which has no surrounding whitespace left to strip. |
| `Backend.ExplainLog` | backend/app/main.py:32-63 | A 400 with `raw_log cannot be empty` comes back exactly when the log is empty or whitespace only. Any other error is a 500 carrying `API request error: ` and the exception text. Success happens exactly when the log is not blank and the content could be read. On success `raw_llm` is the stripped text and `parsed` is `extract_json_from_text` of it. |
| `Backend.BlankLogIgnoresModel` | backend/app/main.py:36-37 | A blank log is refused before the model is consulted: the reply is the same whatever the model would answer. |
| `Backend.PromptCarriesUnstrippedLog` | backend/app/main.py:36-40 | The prompt carries the log as received, surrounding whitespace included: only the emptiness test strips it. |
| `SeverityBadge.GetVariant` | ai-log-ui/components/ui/SeverityBadge/SeverityBadge.tsx:11-28 | Danger exactly for critical, high or error. Warning exactly for medium, warning or warn. Success exactly for low, info or informational. Default otherwise. |
| `SeverityBadge.GetIcon` | ai-log-ui/components/ui/SeverityBadge/SeverityBadge.tsx:30-47 | Red, yellow and green circles exactly for the same three groups. A white circle for every other level. |
| `SeverityBadge.IconMatchesVariant` | ai-log-ui/components/ui/SeverityBadge/SeverityBadge.tsx:11-47 | The two switches agree: the icon is always the one of the chosen variant. |
| `SeverityBadge.VariantIconInjective` | ai-log-ui/components/ui/SeverityBadge/SeverityBadge.tsx:30-47 | Each variant has its own icon. |
| `SeverityBadge.Render` | ai-log-ui/components/ui/SeverityBadge/SeverityBadge.tsx:49-54 | The text is the level as given. The variant is chosen from the lower-cased level, and the icon goes with that variant. |
| `SeverityBadge.RenderCaseInsensitive` | ai-log-ui/components/ui/SeverityBadge/SeverityBadge.tsx:9 | Levels equal up to letter case get the same variant and icon. |
| `Meter.Clamp` | ai-log-ui/components/ui/Meter/Meter.tsx:15 | The percentage lies in [0, 100]. It equals the value inside that range and is saturated outside it. |
| `Meter.ClampIdempotent` | ai-log-ui/components/ui/Meter/Meter.tsx:15 | Clamping twice is clamping once. |
| `Meter.ClampMonotone` | ai-log-ui/components/ui/Meter/Meter.tsx:15 | Clamping keeps the order of values. |
| `Meter.Round` | ai-log-ui/components/ui/Meter/Meter.tsx:49 | `Math.round`: the result is within half of the argument, and halves go up. |
| `Meter.ColorOf` | ai-log-ui/components/ui/Meter/Meter.tsx:18-24 | Danger, warn and success colours exactly for their lists. `success` is in the success list. Primary otherwise. |
| `Meter.Render` | ai-log-ui/components/ui/Meter/Meter.tsx:12-52 | The ARIA range is 0-100 and the ARIA value is the clamped value. The text is that value rounded. The colour comes from the lower-cased severity, `info` by default. The label is the caption when truthy, else `meter`. |
| `Meter.DefaultIsSuccess` | ai-log-ui/components/ui/Meter/Meter.tsx:12 | Without a severity the meter is success-coloured. |
| `Meter.ColorCaseInsensitive` | ai-log-ui/components/ui/Meter/Meter.tsx:19 | Severities equal up to letter case get the same colour. |
| `Meter.AgreesWithSeverityBadge` | ai-log-ui/components/ui/Meter/Meter.tsx:20-22 | The meter's groups are the badge's variants, except `success`: green on the meter, neutral on the badge. |
| `Stepper.PlainIsShorthand` | ai-log-ui/components/ui/Stepper/Stepper.tsx:14 | Writing a step as a bare string or as the object `{label: s}` renders the same row: normalisation makes the two forms interchangeable. |
| `Stepper.SafeCurrent` | ai-log-ui/components/ui/Stepper/Stepper.tsx:16 | With steps, the current step lies in 1..n. It equals `current` in range and saturates outside. With no steps it is 0. |
| `Stepper.CircleStyles` | ai-log-ui/components/ui/Stepper/Stepper.tsx:28-31 | Exactly one of the three independent class conditions holds. Filled exactly when done. Outlined exactly when current and not done. |
| `Stepper.Render` | ai-log-ui/components/ui/Stepper/Stepper.tsx:21-47 | One view per step, with its label. The done steps are exactly those before the current one. Only the step at index current-1 carries `aria-current`. A step that is not done shows its 1-based number. Every step but the last has a connector, lit exactly when that step is done. |
| `Stepper.ExactlyOneCurrent` | ai-log-ui/components/ui/Stepper/Stepper.tsx:16-33 | With at least one step, exactly one step is current and it is not done. |
| `Stepper.NoStepsNoCurrent` | ai-log-ui/components/ui/Stepper/Stepper.tsx:16 | With no steps nothing is rendered. |
| `TaskList.HandleToggle` | ai-log-ui/components/ui/TaskList.tsx:13-17 | The toggled id's flag flips and is stored. An absent key is read through the plain object's prototype: collapsed for an ordinary id, expanded for an inherited name such as `constructor`. Every other key keeps its presence and value. |
| `TaskList.ToggleTwice` | ai-log-ui/components/ui/TaskList.tsx:15-17 | Toggling twice restores the flag. The map itself comes back when the key was present. An absent key is left stored as the value it was read as: `false` for an ordinary id, `true` for an inherited name. |
| `TaskList.FreshStateExpansion` | ai-log-ui/components/ui/TaskList.tsx:13-16 | In the initial `{}` an id reads as expanded exactly when it names an inherited member. One click on `constructor` therefore stores `false`. |
| `TaskList.TitleKeyIsNotDescKey` | ai-log-ui/components/ui/TaskList.tsx:56-75 | No `-title` copy key equals any `-desc` copy key. |
| `TaskList.TitleKeyInjective` | ai-log-ui/components/ui/TaskList.tsx:56-58 | Different ids give different title copy keys. |
| `TaskList.DescKeyInjective` | ai-log-ui/components/ui/TaskList.tsx:75-77 | Different ids give different description copy keys. |
| `TaskList.PriorityIcon` | ai-log-ui/components/ui/TaskList.tsx:30-37 | Flame, zap and check exactly for high, medium and low after lower-casing. A file icon otherwise, including a missing priority. |
| `TaskList.PriorityStyles` | ai-log-ui/components/ui/TaskList.tsx:87-92 | Exactly one of the four independent class conditions holds, and it agrees with the icon. |
| `TaskList.RenderCard` | ai-log-ui/components/ui/TaskList.tsx:41-98 | The description's expansion is `expanded[task.id]` read as above. A falsy title renders as Untitled, and its copy value is `''`. A description is shown only when truthy: clamped while collapsed, with an Expand/Collapse caption, and marked copied only for its own key. The copy keys are `id-title` and `id-desc`. A badge exists only for a truthy priority. It carries the style and icon chosen from the lower-cased priority, and the text `Priority: <p>`. |
| `TaskList.Render` | ai-log-ui/components/ui/TaskList.tsx:26-28 | The placeholder `No tasks available.` appears exactly for missing or empty tasks. Otherwise there is one card per task, in order. |
| `TaskList.AtMostOneCopiedIndicator` | ai-log-ui/components/ui/TaskList.tsx:19-24 | With distinct ids, at most one copy button in the list shows the copied state. |
| `TaskList.DuplicateIdsShareExpansion` | ai-log-ui/components/ui/TaskList.tsx:13 | Tasks with the same id share their expansion flag, because the state is keyed by id alone. |
| `LogSections.AllStartExpanded` | ai-log-ui/components/ui/LogSections.tsx:31-35 | Every section starts expanded. |
| `LogSections.Toggle` | ai-log-ui/components/ui/LogSections.tsx:37-39 | Only the toggled section's flag changes, and it flips. |
| `LogSections.ToggleTwice` | ai-log-ui/components/ui/LogSections.tsx:37-39 | Toggling a section twice restores the state. |
| `LogSections.RenderSectionContents` | ai-log-ui/components/ui/LogSections.tsx:37-81 | The card is titled by its level, with a danger, warning or success badge for error, warning or info. The button reads Collapse exactly while the items are listed. Every item is listed in order with its message, and its timestamp, exactly as given, appears only when truthy. Toggling the section shows or hides its items and leaves every other card unchanged. |
| `LogSections.LevelsWithItems` | ai-log-ui/components/ui/LogSections.tsx:51-53 | The levels that get a card, taken from a given position on. Each has a non-empty item list. They keep the error, warning, info order. Every level from that position with items is among them. |
| `LogSections.Render` | ai-log-ui/components/ui/LogSections.tsx:41-85 | The summary card is shown exactly when the summary is truthy. Error, warning and info cards appear in that order, each exactly when its list is non-empty. |
| `LogSections.SectionBadges` | ai-log-ui/components/ui/LogSections.tsx:62 | The section badges come out as danger for error, warning for warning, success for info. |
| `Page.HttpErrorMessage` | ai-log-ui/app/page.tsx:88-98 | `Error: <status> - `, followed by one of three things. A JSON body's truthy `detail` is used when present. A JSON body without one gives the unknown-server-error text. A body that is not JSON, or is `null`, gives the status text. |
| `Page.ExceptionMessage` | ai-log-ui/app/page.tsx:103-112 | A TypeError mentioning `fetch` gives the server-did-not-respond text. Any other Error gives `An unexpected error occurred: ` and its message. A thrown non-Error gives the bare unexpected-error text. |
| `Page.HttpErrorNamesStatus` | ai-log-ui/app/page.tsx:90 | The status can be read back from every HTTP error message. |
| `Page.ExceptionIsNotHttpError` | ai-log-ui/app/page.tsx:88-112 | An exception message never looks like an HTTP error message, so the two kinds cannot be confused. |
| `Page.ErrorMessagesNonEmpty` | ai-log-ui/app/page.tsx:97-111 | Every error the page sets is non-empty, so the alert always appears. |
| `Page.Finish` | ai-log-ui/app/page.tsx:79-115 | Loading always ends, including on the early return. The inputs and view are untouched. |
| `Page.Analyze` | ai-log-ui/app/page.tsx:69-116 | A result is set exactly when an ok response carried a JSON object, and it is that object. An error is set exactly when no JSON value was delivered, with the message for its cause. Result and error never appear together. |
| `Page.NullBodyShowsNothing` | ai-log-ui/app/page.tsx:101-102 | An ok response whose body is `null` leaves neither result nor error. |
| `Page.AnalyzeForgetsPrevious` | ai-log-ui/app/page.tsx:70-72 | The outcome does not depend on the previous result, error or loading flag. |
| `Page.ButtonLifecycle` | ai-log-ui/app/page.tsx:180 | The button is disabled while a request is in flight. Afterwards it is disabled exactly when the log is empty. |
| `Page.WhitespaceLogEnabled` | ai-log-ui/app/page.tsx:180 | The button tests only for an empty log, so a whitespace-only log can be sent. |
| `Page.NextMessageIndex` | ai-log-ui/app/page.tsx:62 | The next index is always a valid message index. |
| `Page.MessageIndexCycles` | ai-log-ui/app/page.tsx:58-64 | After t ticks of the interval the index is t mod 5. |
| `Page.LoadingMessage` | ai-log-ui/app/page.tsx:50-64 | The message after t ticks is message t mod 5. |
| `Page.LoadingMessagesRepeat` | ai-log-ui/app/page.tsx:58-64 | The messages repeat every five ticks, and each cycle starts with "Processing your log...". |
| `Page.ToggleView` | ai-log-ui/app/page.tsx:196 | The toggle always switches to the other view. |
| `Page.ToggleCaption` | ai-log-ui/app/page.tsx:198 | The caption names the view the toggle switches to. |
| `Page.ToggleViewTwice` | ai-log-ui/app/page.tsx:196 | Toggling twice restores the view. |
| `Page.SectionAt` | ai-log-ui/app/page.tsx:244-336 | A section that is shown has its place in the layout order and shows its own field unchanged. The score is not clamped. |
| `Page.SectionsFrom` | ai-log-ui/app/page.tsx:242-337 | The sections from a given place on: in layout order, each shown exactly when its condition holds. |
| `Page.PrettySections` | ai-log-ui/app/page.tsx:242-337 | Summary, root cause, fixes, severity, reproduction steps, follow-up tests, confidence and notes come in that order. Each appears exactly when its field is truthy, a non-empty list, or a number, and shows that field. |
| `Page.ShownSectionsNonEmpty` | ai-log-ui/app/page.tsx:244-325 | A shown text section is non-empty, and a shown list section has items. |
| `Page.RenderResult` | ai-log-ui/app/page.tsx:216-389 | The raw view shows `parsed`. The pretty view shows the structured card when parsed, else the model text or `No explanation available.`. It also shows the task list, fed the parsed tasks or an empty list, and the technical details: `raw_llm` or `N/A`, the raw copy value `raw_llm ?? ''`, and the structured data when parsed. |
| `Page.NoTasksShowsPlaceholder` | ai-log-ui/app/page.tsx:349 | A result without tasks shows the task list's placeholder. |
| `Page.RenderPage` | ai-log-ui/app/page.tsx:178-214 | The toggle and the result area appear exactly when there is a result. The spinner appears exactly while loading, with the current rotating message. The error alert appears exactly for a truthy error. |
| `Page.ScreenWhileLoading` | ai-log-ui/app/page.tsx:58-59 | Right after the press, only the spinner shows, with the first message, and the button is disabled. |
| `Page.ScreenAfterAnalyze` | ai-log-ui/app/page.tsx:113-115 | After the request settles, the spinner is gone. The alert shows exactly when the request failed, and the results exactly when an object was delivered. |
| `EndToEnd.PageLogReachesModel` | ai-log-ui/app/page.tsx:85 | The log typed into the page reaches the model's user prompt verbatim, untrimmed. An empty context field gives the same messages as no context. |
| `EndToEnd.WhitespaceLogRefused` | backend/app/main.py:36-37 | A whitespace-only log passes the button, and the user sees `Error: 400 - raw_log cannot be empty` with no result. |
| `EndToEnd.ModelFailureShown` | backend/app/main.py:59-60 | A raising model call is shown as `Error: 500 - API request error: <message>`, with no result. |
| `EndToEnd.AnswerShown` | backend/app/main.py:57-63 | A model answer is shown as the result, with the stripped text, and, as the parsed part, the decoded object the extractor finds in that text, or none when it finds nothing. No error is shown. |
| `EndToEnd.ResultIffBackendOk` | ai-log-ui/app/page.tsx:88-102 | The page shows a result exactly when the backend answered with a body, and an error exactly when it raised. |

## Findings

| source | as written | input that shows it | evidently intended | confidence | as-written member | corrected member |
|---|---|---|---|---|---|---|
| backend/app/utils.py:5-13 | Candidates start only at the first `{`. When none of them parses, the scan gives up without trying a later `{`. | `{ {"a":1}` with a parser that accepts `{"a":1}`: the result is None, though `text[2..9]` is that object. | The docstring promises "the first valid JSON object" (line 6), while also describing the scan as starting from the first `{` (line 8). | low: the docstring describes both, not executed | `JsonExtract.ExtractJson`, `JsonExtract.StrayBraceHidesObject` | `JsonExtract.ExtractFirstValid`, `JsonExtract.FirstValidExtendsExtract` |

`Backend.ExplainLog` keeps the extractor as written, since that is the one the handler calls. The restarting extractor returns the same object whenever the one as written finds anything, so a reply whose `parsed` is present is the same under both. A reply whose `parsed` is absent may gain an object under the restarting extractor.

## Left out

- Stepper.SafeCurrent: `current` is an integer, as the "1-based index" prop comment says. A JavaScript `number` may also be fractional or `NaN`: `current = 2.5` with three steps gives `safeCurrent = 2.5`, which no step index matches.
- Stepper.ExactlyOneCurrent: holds for an integral `current` only. For a fractional or `NaN` `current`, the source marks no step current.
- Page.PrettySections: the parsed result is decoded into typed fields. The page only casts the model's JSON, so a field of the wrong type takes paths the model does not have: a string `probable_fixes` passes `.length > 0` and then throws at `.map`, and a numeric `severity` throws in `level.toLowerCase()`.
- Page.RenderResult: `tasks` is a list or absent. In the source, a `tasks` object that is not an array passes the `as` cast and throws inside the task list's `.map`.
- Page.SectionAt: the confidence score is printed as `confidence_score%`, with no clamping to [0, 100].
- Network, `fetch`, CORS, the OpenAI/OpenRouter client and its settings (backend/app/config.py is not part of this model). Their results are parameters.
- `json.loads`, `response.json()` and `JSON.stringify` are parameters, or are represented by the already decoded value. The raw view holds the parsed object rather than its pretty-printed text.
- Backend.ExplainLog: FastAPI's own 422 answer for a body that fails `LogRequest` validation is not modelled. Exceptions are modelled by their `str()` text. Completion shapes other than "raised", "no choices" and "missing content" are not modelled.
- Page.HttpErrorMessage: a `detail` that is not a string (FastAPI sends a list for validation errors) is represented by its rendered string. A JSON body that is not an object is treated like an object without `detail`.
- Page.Analyze: an ok body that decodes to a falsy non-object JSON value (`false`, `0`, `""`) is not modelled. The `Body` cases are "throws", `null` and an object.
- The `issue` and `solution` fields of `ParsedResult` are never rendered, so they are not modelled. The page's `Task` type and the task list's `Task` type both declare `title: string`. The model widens the title to an optional value, so that a title missing from the model's JSON is represented.
- Clipboard writes, the 1.2 s reset of the copied key, the 8 s interval (modelled as a tick count), the 100 ms scroll, `console.error`, `print`, the theme toggle and all styling other than the class choices listed above.
- Meter.Render: the SVG geometry (radius, circumference, dash) and JavaScript floating point, including `NaN`, are not modelled. Values are exact reals.
- Text.LowerChar: only ASCII letters are case-folded.
- Text.Strip: only ASCII whitespace and the separators 28-31 count as whitespace; Python also strips Unicode spaces.
- The presentational components (Button, Card, Input, Textarea, Badge, ErrorAlert, LoadingSpinner, CopyButton, Skeleton, layout) only forward their props and are not modelled.
