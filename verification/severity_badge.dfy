/**
 * `SeverityBadge` (ai-log-ui/components/ui/SeverityBadge/SeverityBadge.tsx):
 * a badge whose colour variant and icon are chosen from the lower-cased
 * level, and whose text is the level as given.
 */
module SeverityBadge {
  import Text

  datatype Variant = Danger | Warning | Success | Default

  const DangerLevels: set<string> := {"critical", "high", "error"}
  const WarningLevels: set<string> := {"medium", "warning", "warn"}
  const SuccessLevels: set<string> := {"low", "info", "informational"}

  const RedCircle: string := "\U{1F534}"
  const YellowCircle: string := "\U{1F7E1}"
  const GreenCircle: string := "\U{1F7E2}"
  const WhiteCircle: string := "\U{26AA}"

  /** `getVariant(severity)` on an already lower-cased severity. */
  function GetVariant(severity: string): (v: Variant)
    ensures v == Danger <==> severity in DangerLevels
    ensures v == Warning <==> severity in WarningLevels
    ensures v == Success <==> severity in SuccessLevels
  {
    if severity in DangerLevels then Danger
    else if severity in WarningLevels then Warning
    else if severity in SuccessLevels then Success
    else Default
  }

  /** `getIcon(severity)` on an already lower-cased severity. */
  function GetIcon(severity: string): (icon: string)
    ensures icon == RedCircle <==> severity in DangerLevels
    ensures icon == YellowCircle <==> severity in WarningLevels
    ensures icon == GreenCircle <==> severity in SuccessLevels
    ensures severity !in DangerLevels && severity !in WarningLevels && severity !in SuccessLevels ==> icon == WhiteCircle
  {
    if severity in DangerLevels then RedCircle
    else if severity in WarningLevels then YellowCircle
    else if severity in SuccessLevels then GreenCircle
    else WhiteCircle
  }

  /** The icon that goes with each variant. */
  function VariantIcon(v: Variant): string {
    match v
    case Danger => RedCircle
    case Warning => YellowCircle
    case Success => GreenCircle
    case Default => WhiteCircle
  }

  /** The two switches agree: the icon is always the one of the chosen variant. */
  lemma IconMatchesVariant(severity: string)
    ensures GetIcon(severity) == VariantIcon(GetVariant(severity))
  {
  }

  /** Each variant has its own icon. */
  lemma VariantIconInjective(v: Variant, w: Variant)
    requires VariantIcon(v) == VariantIcon(w)
    ensures v == w
  {
  }

  datatype Badge = Badge(variant: Variant, icon: string, text: string)

  /** `<SeverityBadge level={level} />`. */
  function Render(level: string): (b: Badge)
    ensures b.text == level
    ensures b.variant == GetVariant(Text.Lower(level))
    ensures b.icon == VariantIcon(b.variant)
  {
    var normalized := Text.Lower(level);
    IconMatchesVariant(normalized);
    Badge(GetVariant(normalized), GetIcon(normalized), level)
  }

  /** Levels that differ only in ASCII letter case get the same variant and icon. */
  lemma RenderCaseInsensitive(a: string, b: string)
    requires Text.SameUpToCase(a, b)
    ensures Render(a).variant == Render(b).variant
    ensures Render(a).icon == Render(b).icon
  {
    Text.LowerIdentifiesCase(a, b);
  }
}
