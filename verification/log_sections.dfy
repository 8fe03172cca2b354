/**
 * `LogSections` (ai-log-ui/components/ui/LogSections.tsx): an optional
 * summary card, then one collapsible card per severity level, in the fixed
 * order error, warning, info, each listing its items while expanded.
 */
module LogSections {
  import opened Wrappers
  import Text
  import SeverityBadge

  datatype Level = Error | Warning | Info

  /** The key of a level in the data object and in the state object. */
  function KeyName(k: Level): string {
    match k
    case Error => "error"
    case Warning => "warning"
    case Info => "info"
  }

  function Icon(k: Level): string {
    match k
    case Error => "\U{274C}"
    case Warning => "\U{26A0}\U{FE0F}"
    case Info => "\U{2139}\U{FE0F}"
  }

  function Colors(k: Level): string {
    match k
    case Error => "bg-red-100 border-red-400"
    case Warning => "bg-yellow-100 border-yellow-400"
    case Info => "bg-green-100 border-green-400"
  }

  /** Position of a level in the rendering order. */
  function Rank(k: Level): nat {
    match k
    case Error => 0
    case Warning => 1
    case Info => 2
  }

  /** `["error", "warning", "info"]`. */
  const Order: seq<Level> := [Error, Warning, Info]

  // ---------------------------------------------------------------------
  // Expansion state

  datatype Expanded = Expanded(error: bool, warning: bool, info: bool)

  function IsOpen(e: Expanded, k: Level): bool {
    match k
    case Error => e.error
    case Warning => e.warning
    case Info => e.info
  }

  /** The initial state: every section expanded. */
  const InitiallyExpanded: Expanded := Expanded(true, true, true)

  lemma AllStartExpanded(k: Level)
    ensures IsOpen(InitiallyExpanded, k)
  {
  }

  /** `toggle(key)`: `{...prev, [key]: !prev[key]}`. */
  function Toggle(e: Expanded, key: Level): (r: Expanded)
    ensures IsOpen(r, key) == !IsOpen(e, key)
    ensures forall k :: k != key ==> IsOpen(r, k) == IsOpen(e, k)
  {
    match key
    case Error => e.(error := !e.error)
    case Warning => e.(warning := !e.warning)
    case Info => e.(info := !e.info)
  }

  /** Toggling the same section twice restores the state. */
  lemma ToggleTwice(e: Expanded, key: Level)
    ensures Toggle(Toggle(e, key), key) == e
  {
  }

  // ---------------------------------------------------------------------
  // Rendering

  datatype Item = Item(message: string, timestamp: Option<string>)

  datatype LogData = LogData(summary: Option<string>, error: Option<seq<Item>>, warning: Option<seq<Item>>, info: Option<seq<Item>>)

  function ItemsOf(d: LogData, k: Level): Option<seq<Item>> {
    match k
    case Error => d.error
    case Warning => d.warning
    case Info => d.info
  }

  /** A section is rendered only when its item list is present and non-empty. */
  predicate HasItems(d: LogData, k: Level) {
    ItemsOf(d, k).Some? && ItemsOf(d, k).value != []
  }

  /** One item: its message, and its timestamp only when that is truthy. */
  datatype ItemView = ItemView(message: string, timestamp: Option<string>)

  function RenderItem(item: Item): (v: ItemView)
    ensures v.message == item.message
    ensures v.timestamp.Some? <==> Text.Truthy(item.timestamp)
    ensures v.timestamp.Some? ==> v.timestamp == item.timestamp
  {
    ItemView(item.message, if Text.Truthy(item.timestamp) then item.timestamp else None)
  }

  /** A section card: its level, icon, colours, badge, title, button label, and items while expanded. */
  datatype SectionView = SectionView(
    level: Level, icon: string, colors: string, badge: SeverityBadge.Badge,
    title: string, buttonLabel: string, items: Option<seq<ItemView>>)

  function RenderSection(d: LogData, e: Expanded, k: Level): SectionView
    requires HasItems(d, k)
  {
    var items := ItemsOf(d, k).value;
    SectionView(
      k, Icon(k), Colors(k), SeverityBadge.Render(KeyName(k)), KeyName(k),
      if IsOpen(e, k) then "Collapse" else "Expand",
      if IsOpen(e, k) then Some(seq(|items|, n requires 0 <= n < |items| => RenderItem(items[n]))) else None)
  }

  /**
   * What a section card shows: its level's title and a badge of the matching
   * colour, a button reading "Collapse" exactly while the items are listed,
   * and then every item, in order, with its timestamp only when it has one.
   * Toggling the section shows or hides its items and leaves every other
   * section's card as it was.
   */
  lemma RenderSectionContents(d: LogData, e: Expanded, k: Level)
    requires HasItems(d, k)
    ensures var s := RenderSection(d, e, k);
      && s.level == k && s.title == KeyName(k)
      && (k == Error ==> s.badge.variant == SeverityBadge.Danger)
      && (k == Warning ==> s.badge.variant == SeverityBadge.Warning)
      && (k == Info ==> s.badge.variant == SeverityBadge.Success)
      && (s.buttonLabel == "Collapse" <==> s.items.Some?)
      && (s.items.Some? <==> IsOpen(e, k))
      && (s.items.Some? ==>
           |s.items.value| == |ItemsOf(d, k).value| &&
           forall n :: 0 <= n < |s.items.value| ==>
             s.items.value[n].message == ItemsOf(d, k).value[n].message &&
             (s.items.value[n].timestamp.Some? <==> Text.Truthy(ItemsOf(d, k).value[n].timestamp)) &&
             (s.items.value[n].timestamp.Some? ==> s.items.value[n].timestamp == ItemsOf(d, k).value[n].timestamp))
    ensures RenderSection(d, Toggle(e, k), k).items.Some? != RenderSection(d, e, k).items.Some?
    ensures forall j :: j != k && HasItems(d, j) ==> RenderSection(d, Toggle(e, k), j) == RenderSection(d, e, j)
  {
    SectionBadges();
  }

  /** The levels of a list of section cards. */
  function Levels(r: seq<SectionView>): seq<Level> {
    seq(|r|, n requires 0 <= n < |r| => r[n].level)
  }

  predicate Ascending(r: seq<SectionView>) {
    forall m, n :: 0 <= m < n < |r| ==> Rank(r[m].level) < Rank(r[n].level)
  }

  /**
   * The levels of `Order` from position `k` on whose item list is non-empty,
   * in order: the levels the `map` over the level names does not turn into
   * `null`.
   */
  function LevelsWithItems(d: LogData, k: nat): (ls: seq<Level>)
    requires k <= |Order|
    ensures forall n :: 0 <= n < |ls| ==> HasItems(d, ls[n]) && k <= Rank(ls[n])
    ensures forall m, n :: 0 <= m < n < |ls| ==> Rank(ls[m]) < Rank(ls[n])
    ensures forall j :: k <= j < |Order| && HasItems(d, Order[j]) ==> Order[j] in ls
    decreases |Order| - k
  {
    if k == |Order| then []
    else
      var rest := LevelsWithItems(d, k + 1);
      assert Rank(Order[k]) == k;
      if HasItems(d, Order[k]) then [Order[k]] + rest else rest
  }

  /** What the component renders: the summary card when the summary is truthy, then the section cards. */
  datatype LogView = LogView(summary: Option<string>, sections: seq<SectionView>)

  /** `<LogSections data={data} />` with section state `e`. */
  function Render(d: LogData, e: Expanded): (v: LogView)
    ensures v.summary.Some? <==> Text.Truthy(d.summary)
    ensures v.summary.Some? ==> v.summary == d.summary
    // Error, then warning, then info; each present exactly when it has items.
    ensures Ascending(v.sections)
    ensures forall k :: HasItems(d, k) <==> k in Levels(v.sections)
    ensures forall n :: 0 <= n < |v.sections| ==>
      HasItems(d, v.sections[n].level) && v.sections[n] == RenderSection(d, e, v.sections[n].level)
  {
    var ls := LevelsWithItems(d, 0);
    var sections := seq(|ls|, n requires 0 <= n < |ls| => RenderSection(d, e, ls[n]));
    assert Levels(sections) == ls;
    forall k: Level ensures HasItems(d, k) <==> k in ls {
      assert Order[Rank(k)] == k;
    }
    LogView(if Text.Truthy(d.summary) then d.summary else None, sections)
  }

  /** Each section's badge classifies its own level as the badge component does. */
  lemma SectionBadges()
    ensures SeverityBadge.Render(KeyName(Error)).variant == SeverityBadge.Danger
    ensures SeverityBadge.Render(KeyName(Warning)).variant == SeverityBadge.Warning
    ensures SeverityBadge.Render(KeyName(Info)).variant == SeverityBadge.Success
  {
    assert Text.Lower("error") == "error";
    assert Text.Lower("warning") == "warning";
    assert Text.Lower("info") == "info";
  }
}
