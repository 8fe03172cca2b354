/**
 * `Stepper` (ai-log-ui/components/ui/Stepper/Stepper.tsx): a row of numbered
 * steps with a 1-based current step; the steps before it are shown as done,
 * and a connector after every step but the last is lit when that step is done.
 */
module Stepper {
  import opened Wrappers

  datatype Step = Step(text: string)

  /** One entry of the `steps` prop: a bare string or a `{label}` object (its `label` is `text` here). */
  datatype StepInput = Plain(s: string) | Labelled(step: Step)

  /** Every string `s` becomes `{label: s}`; objects are kept. */
  function Normalize(steps: seq<StepInput>): (r: seq<Step>)
    ensures |r| == |steps|
    ensures forall k :: 0 <= k < |steps| && steps[k].Plain? ==> r[k] == Step(steps[k].s)
    ensures forall k :: 0 <= k < |steps| && steps[k].Labelled? ==> r[k] == steps[k].step
  {
    seq(|steps|, k requires 0 <= k < |steps| =>
      match steps[k]
      case Plain(s) => Step(s)
      case Labelled(st) => st)
  }

  /** `Math.min(Math.max(current, 1), n)`. */
  function SafeCurrent(current: int, n: nat): (c: int)
    ensures n >= 1 ==> 1 <= c <= n
    ensures n == 0 ==> c == 0
    ensures 1 <= current <= n ==> c == current
    ensures n >= 1 && current < 1 ==> c == 1
    ensures current > n ==> c == n
  {
    var lower := if current > 1 then current else 1;
    if lower < n then lower else n
  }

  /** Style of the step circle: filled when done, outlined when current, muted otherwise. */
  datatype CircleStyle = Filled | Outlined | Muted

  /** The three independent class conditions of the step circle. */
  function CircleStyles(isCompleted: bool, isCurrent: bool): (r: seq<CircleStyle>)
    ensures |r| == 1
    ensures r[0] == Filled <==> isCompleted
    ensures r[0] == Outlined <==> isCurrent && !isCompleted
  {
    (if isCompleted then [Filled] else [])
    + (if isCurrent && !isCompleted then [Outlined] else [])
    + (if !isCompleted && !isCurrent then [Muted] else [])
  }

  /** A check mark for a done step, its 1-based number otherwise. */
  datatype Marker = Check | Number(n: nat)

  /**
   * One rendered step: label, circle style and marker, whether it carries
   * `aria-current="step"`, and its connector (absent after the last step,
   * otherwise whether it is highlighted).
   */
  datatype StepView = StepView(text: string, style: seq<CircleStyle>, marker: Marker, ariaCurrent: bool, connector: Option<bool>)

  function RenderStep(step: Step, idx: nat, lastIdx: int, safeCurrent: int): StepView {
    var isCompleted := idx + 1 < safeCurrent;
    var isCurrent := idx + 1 == safeCurrent;
    StepView(step.text,
             CircleStyles(isCompleted, isCurrent),
             if isCompleted then Check else Number(idx + 1),
             isCurrent,
             if idx != lastIdx then Some(idx + 1 < safeCurrent) else None)
  }

  /** `<Stepper steps={steps} current={current} />`. */
  function Render(steps: seq<StepInput>, current: int): (r: seq<StepView>)
    ensures |r| == |steps|
    ensures forall k :: 0 <= k < |r| ==> r[k].text == Normalize(steps)[k].text
    // The done steps are exactly those before the current one.
    ensures forall k :: 0 <= k < |r| ==> (r[k].marker == Check <==> k < SafeCurrent(current, |steps|) - 1)
    // Exactly the step at index safeCurrent - 1 is current.
    ensures forall k :: 0 <= k < |r| ==> (r[k].ariaCurrent <==> k == SafeCurrent(current, |steps|) - 1)
    // The circle style follows the two flags.
    ensures forall k :: 0 <= k < |r| ==> r[k].style == CircleStyles(r[k].marker == Check, r[k].ariaCurrent)
    // A step that is not done shows its 1-based number.
    ensures forall k :: 0 <= k < |r| && r[k].marker != Check ==> r[k].marker == Number(k + 1)
    // A connector follows every step but the last, lit exactly when that step is done.
    ensures forall k :: 0 <= k < |r| ==> (r[k].connector.Some? <==> k < |r| - 1)
    ensures forall k :: 0 <= k < |r| && r[k].connector.Some? ==> (r[k].connector.value <==> r[k].marker == Check)
  {
    var normalized := Normalize(steps);
    var lastIdx := |normalized| - 1;
    var safeCurrent := SafeCurrent(current, |normalized|);
    seq(|normalized|, k requires 0 <= k < |normalized| => RenderStep(normalized[k], k, lastIdx, safeCurrent))
  }

  /**
   * A bare string is shorthand for the object `{label: s}`: writing either
   * form for any one step renders the same row.
   */
  lemma PlainIsShorthand(steps: seq<StepInput>, k: nat, current: int)
    requires k < |steps| && steps[k].Plain?
    ensures Render(steps[k := Labelled(Step(steps[k].s))], current) == Render(steps, current)
  {
    var steps' := steps[k := Labelled(Step(steps[k].s))];
    assert Normalize(steps') == Normalize(steps);
  }

  /** With at least one step, exactly one step is current and none is both done and current. */
  lemma ExactlyOneCurrent(steps: seq<StepInput>, current: int)
    requires |steps| >= 1
    ensures exists k :: 0 <= k < |steps| && Render(steps, current)[k].ariaCurrent
    ensures forall j, k :: 0 <= j < k < |steps| ==> !(Render(steps, current)[j].ariaCurrent && Render(steps, current)[k].ariaCurrent)
    ensures forall k :: 0 <= k < |steps| ==> !(Render(steps, current)[k].ariaCurrent && Render(steps, current)[k].marker == Check)
  {
    var r := Render(steps, current);
    var c := SafeCurrent(current, |steps|);
    assert r[c - 1].ariaCurrent;
  }

  /** Without steps nothing is rendered, whatever `current` is. */
  lemma NoStepsNoCurrent(current: int)
    ensures SafeCurrent(current, 0) == 0
    ensures Render([], current) == []
  {
  }
}
