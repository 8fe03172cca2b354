/**
 * `Meter` (ai-log-ui/components/ui/Meter/Meter.tsx): a circular gauge whose
 * percentage is the value clamped to [0, 100] and whose colour is picked
 * from the lower-cased severity.
 */
module Meter {
  import opened Wrappers
  import Text
  import SeverityBadge

  /** `Math.max(0, Math.min(100, value))`. */
  function Clamp(value: real): (pct: real)
    ensures 0.0 <= pct <= 100.0
    ensures 0.0 <= value <= 100.0 ==> pct == value
    ensures value < 0.0 ==> pct == 0.0
    ensures value > 100.0 ==> pct == 100.0
  {
    var upper := if value < 100.0 then value else 100.0;
    if upper > 0.0 then upper else 0.0
  }

  /** Clamping a clamped value changes nothing. */
  lemma ClampIdempotent(value: real)
    ensures Clamp(Clamp(value)) == Clamp(value)
  {
  }

  /** Clamping keeps the order of values. */
  lemma ClampMonotone(a: real, b: real)
    requires a <= b
    ensures Clamp(a) <= Clamp(b)
  {
  }

  /** `Math.round(pct)`: the nearest integer, halves rounded up. */
  function Round(x: real): (n: int)
    ensures n as real - 0.5 <= x < n as real + 0.5
  {
    (x + 0.5).Floor
  }

  datatype Color = DangerColor | WarnColor | SuccessColor | PrimaryColor

  const DangerSeverities: seq<string> := ["critical", "high", "error"]
  const WarnSeverities: seq<string> := ["medium", "warning", "warn"]
  const SuccessSeverities: seq<string> := ["low", "success", "info", "informational"]

  /** The default of the `severity` prop. */
  const DefaultSeverity: string := "info"

  /** The colour chosen for an already lower-cased severity. */
  function ColorOf(s: string): (c: Color)
    ensures c == DangerColor <==> s in DangerSeverities
    ensures c == WarnColor <==> s in WarnSeverities
    ensures c == SuccessColor <==> s in SuccessSeverities
  {
    if s in DangerSeverities then DangerColor
    else if s in WarnSeverities then WarnColor
    else if s in SuccessSeverities then SuccessColor
    else PrimaryColor
  }

  /** What the meter exposes: accessible label and value range, colour and the percentage shown. */
  datatype MeterView = MeterView(ariaLabel: string, ariaMin: int, ariaMax: int, ariaNow: real, color: Color, text: int)

  /** `<Meter value={value} severity={severity} label={caption} />`. */
  function Render(value: real, severity: Option<string>, caption: Option<string>): (m: MeterView)
    ensures m.ariaMin == 0 && m.ariaMax == 100
    ensures m.ariaNow == Clamp(value)
    ensures 0 <= m.text <= 100 && m.text as real - 0.5 <= m.ariaNow < m.text as real + 0.5
    ensures m.color == ColorOf(Text.Lower(severity.GetOr(DefaultSeverity)))
    ensures m.ariaLabel == if Text.Truthy(caption) then caption.value else "meter"
  {
    var pct := Clamp(value);
    var ariaLabel := if Text.Truthy(caption) then caption.value else "meter";
    MeterView(ariaLabel, 0, 100, pct, ColorOf(Text.Lower(severity.GetOr(DefaultSeverity))), Round(pct))
  }

  /** Without a severity the meter uses the success colour. */
  lemma DefaultIsSuccess(value: real, caption: Option<string>)
    ensures Render(value, None, caption).color == SuccessColor
  {
    assert Text.Lower(DefaultSeverity) == DefaultSeverity;
  }

  /** Severities that differ only in ASCII letter case get the same colour. */
  lemma ColorCaseInsensitive(a: string, b: string)
    requires Text.SameUpToCase(a, b)
    ensures ColorOf(Text.Lower(a)) == ColorOf(Text.Lower(b))
  {
    Text.LowerIdentifiesCase(a, b);
  }

  /**
   * The meter's colour groups are the badge's variants, except that
   * `success` is green here and neutral on the badge.
   */
  lemma AgreesWithSeverityBadge(s: string)
    ensures s != "success" ==>
      (ColorOf(s) == DangerColor <==> SeverityBadge.GetVariant(s) == SeverityBadge.Danger) &&
      (ColorOf(s) == WarnColor <==> SeverityBadge.GetVariant(s) == SeverityBadge.Warning) &&
      (ColorOf(s) == SuccessColor <==> SeverityBadge.GetVariant(s) == SeverityBadge.Success)
    ensures ColorOf("success") == SuccessColor && SeverityBadge.GetVariant("success") == SeverityBadge.Default
  {
  }
}
