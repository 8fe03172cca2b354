/**
 * The prompts sent to the language model (backend/app/prompts.py): a fixed
 * system prompt, and a user prompt that fences the log text, optionally adds
 * a context line, and ends with a fixed instruction.
 */
module Prompts {
  import opened Wrappers
  import Text

  const SystemPrompt: string :=
    "You are a helpful debugging assistant. Given raw system or application logs, "
    + "identify the probable root cause, summarize the error in one sentence, provide "
    + "a step-by-step reproduction checklist (if possible), list probable fixes (ranked), "
    + "assign a severity (low/medium/high/critical), and suggest tests to validate the fix. "
    + "Output must be valid JSON with keys: summary, root_cause, probable_fixes (list), severity, "
    + "reproduction_steps (list), follow_up_tests (list), confidence_score (0-100), and notes."

  /** Opening of the fenced log block. */
  const LogsHeader: string := "\nLogs:\n```\n"
  /** Closing of the fenced log block. */
  const LogsFooter: string := "\n```\n"
  const ContextLabel: string := "\nContext: "
  /** The instruction every user prompt ends with. */
  const Instructions: string :=
    "\nReturn only JSON. If you cannot determine root cause, be honest and say 'unknown'. "
    + "Keep explanations concise."

  /** The optional context line: present only for a truthy context. */
  function ContextLine(context: Option<string>): string {
    if Text.Truthy(context) then ContextLabel + context.value + "\n" else ""
  }

  /** `build_log_prompt(log_text, context)`. */
  function BuildLogPrompt(logText: string, context: Option<string>): (r: string)
    ensures |r| == |LogsHeader| + |logText| + |LogsFooter| + |ContextLine(context)| + |Instructions|
    ensures r[..|LogsHeader|] == LogsHeader
    ensures r[|LogsHeader|..|LogsHeader| + |logText|] == logText
    ensures r[|LogsHeader| + |logText|..|LogsHeader| + |logText| + |LogsFooter|] == LogsFooter
    ensures r[|LogsHeader| + |logText| + |LogsFooter|..|r| - |Instructions|] == ContextLine(context)
    ensures r[|r| - |Instructions|..] == Instructions
  {
    var fenced := LogsHeader + logText + LogsFooter;
    var r := fenced + ContextLine(context) + Instructions;
    assert r[..|LogsHeader|] == LogsHeader;
    assert r[|LogsHeader|..|LogsHeader| + |logText|] == logText;
    assert r[|LogsHeader| + |logText|..|fenced|] == LogsFooter;
    assert r[|fenced|..|r| - |Instructions|] == ContextLine(context);
    assert r[|r| - |Instructions|..] == Instructions;
    r
  }

  /**
   * Inverse of `BuildLogPrompt` for a known context: cut the log text back
   * out of the prompt.
   */
  function LogOf(prompt: string, context: Option<string>): string {
    var tail := |LogsFooter| + |ContextLine(context)| + |Instructions|;
    if |LogsHeader| + tail <= |prompt| then prompt[|LogsHeader|..|prompt| - tail] else ""
  }

  /** The log text comes back out unchanged: no escaping, no trimming. */
  lemma LogRoundTrip(logText: string, context: Option<string>)
    ensures LogOf(BuildLogPrompt(logText, context), context) == logText
  {
  }

  /** For a fixed context, different logs give different prompts. */
  lemma PromptInjectiveInLog(a: string, b: string, context: Option<string>)
    requires BuildLogPrompt(a, context) == BuildLogPrompt(b, context)
    ensures a == b
  {
    LogRoundTrip(a, context);
    LogRoundTrip(b, context);
  }

  /** A missing context and an empty context produce the same prompt. */
  lemma EmptyContextIsNoContext(logText: string)
    ensures BuildLogPrompt(logText, Some("")) == BuildLogPrompt(logText, None)
  {
  }

  /**
   * The prompt is longer than the context-free one exactly when the context
   * is truthy, and then by the context line's length.
   */
  lemma ContextAddedIffTruthy(logText: string, context: Option<string>)
    ensures |BuildLogPrompt(logText, context)| > |BuildLogPrompt(logText, None)| <==> Text.Truthy(context)
    ensures Text.Truthy(context) ==>
      |BuildLogPrompt(logText, context)| == |BuildLogPrompt(logText, None)| + |ContextLabel| + |context.value| + 1
  {
  }
}
