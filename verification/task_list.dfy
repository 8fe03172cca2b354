/**
 * `TaskList` (ai-log-ui/components/ui/TaskList.tsx): one card per task with
 * a priority icon, a title with a copy button, an expandable description with
 * its own copy button, and a priority badge. The component keeps a map from
 * task id to "expanded" and the key of the last copy button pressed.
 */
module TaskList {
  import opened Wrappers
  import Text

  /** `Task`: the title is optional here because a missing title is rendered specially. */
  datatype Task = Task(id: string, title: Option<string>, description: Option<string>, priority: Option<string>)

  // ---------------------------------------------------------------------
  // Expansion state

  /**
   * The members every plain object inherits from `Object.prototype`. Reading
   * one of these names from a `{}` that lacks it as an own key yields a
   * function (or, for `__proto__`, the prototype object): a truthy value.
   */
  const InheritedNames: set<string> := {
    "constructor", "hasOwnProperty", "isPrototypeOf", "propertyIsEnumerable",
    "toLocaleString", "toString", "valueOf", "__proto__",
    "__defineGetter__", "__defineSetter__", "__lookupGetter__", "__lookupSetter__"}

  /**
   * `expanded[id]` read as a boolean. A stored flag is read as stored; an
   * absent key is `undefined` (collapsed) unless the lookup reaches an
   * inherited member, which is truthy (expanded).
   */
  function IsExpanded(expanded: map<string, bool>, id: string): bool {
    if id in expanded then expanded[id] else IsInherited(id)
  }

  predicate IsInherited(id: string) {
    id in InheritedNames
  }

  /** `handleToggle(id)`: `{...prev, [id]: !prev[id]}`. */
  function HandleToggle(expanded: map<string, bool>, id: string): (r: map<string, bool>)
    ensures id in r && IsExpanded(r, id) == !IsExpanded(expanded, id)
    ensures forall k :: k != id ==> (k in r <==> k in expanded)
    ensures forall k :: k != id && k in expanded ==> r[k] == expanded[k]
  {
    expanded[id := !IsExpanded(expanded, id)]
  }

  /**
   * Toggling twice restores the flag; the map itself comes back unchanged
   * when the id was already a key. An absent id is left stored explicitly,
   * as the value it was read as: `false` for an ordinary id, `true` for an
   * inherited name.
   */
  lemma ToggleTwice(expanded: map<string, bool>, id: string)
    ensures IsExpanded(HandleToggle(HandleToggle(expanded, id), id), id) == IsExpanded(expanded, id)
    ensures id in expanded ==> HandleToggle(HandleToggle(expanded, id), id) == expanded
    ensures id !in expanded ==> HandleToggle(HandleToggle(expanded, id), id) == expanded[id := id in InheritedNames]
  {
  }

  /** A fresh state shows an ordinary id collapsed and an inherited name expanded. */
  lemma FreshStateExpansion(id: string)
    ensures IsExpanded(map[], id) <==> id in InheritedNames
    ensures !IsExpanded(map[], "task-1") && IsExpanded(map[], "constructor")
    ensures HandleToggle(map[], "constructor") == map["constructor" := false]
  {
  }

  // ---------------------------------------------------------------------
  // Copy keys

  /** The copy key of a task's title button. */
  function TitleKey(id: string): string {
    id + "-title"
  }

  /** The copy key of a task's description button. */
  function DescKey(id: string): string {
    id + "-desc"
  }

  /** No title key is ever a description key, whatever the two ids are. */
  lemma TitleKeyIsNotDescKey(a: string, b: string)
    ensures TitleKey(a) != DescKey(b)
  {
    var t, d := TitleKey(a), DescKey(b);
    assert t[|t| - 1] == 'e';
    assert d[|d| - 1] == 'c';
  }

  /** Different ids have different title keys. */
  lemma TitleKeyInjective(a: string, b: string)
    requires TitleKey(a) == TitleKey(b)
    ensures a == b
  {
    assert a == TitleKey(a)[..|a|];
  }

  /** Different ids have different description keys. */
  lemma DescKeyInjective(a: string, b: string)
    requires DescKey(a) == DescKey(b)
    ensures a == b
  {
    assert a == DescKey(a)[..|a|];
  }

  // ---------------------------------------------------------------------
  // Priority

  datatype Icon = Flame | Zap | CheckCircle | FileText

  /** `getPriorityIcon(priority)`: switch on `priority?.toLowerCase()`. */
  function PriorityIcon(priority: Option<string>): (icon: Icon)
    ensures icon == Flame <==> priority.Some? && Text.Lower(priority.value) == "high"
    ensures icon == Zap <==> priority.Some? && Text.Lower(priority.value) == "medium"
    ensures icon == CheckCircle <==> priority.Some? && Text.Lower(priority.value) == "low"
  {
    match priority
    case None => FileText
    case Some(p) =>
      var l := Text.Lower(p);
      if l == "high" then Flame else if l == "medium" then Zap else if l == "low" then CheckCircle else FileText
  }

  datatype PriorityStyle = DangerStyle | WarnStyle | SuccessStyle | NeutralStyle

  /** The four independent class conditions of the priority badge, in source order. */
  function PriorityStyles(priority: string): (r: seq<PriorityStyle>)
    ensures |r| == 1
    ensures r[0] == DangerStyle <==> PriorityIcon(Some(priority)) == Flame
    ensures r[0] == WarnStyle <==> PriorityIcon(Some(priority)) == Zap
    ensures r[0] == SuccessStyle <==> PriorityIcon(Some(priority)) == CheckCircle
  {
    var l := Text.Lower(priority);
    (if l == "high" then [DangerStyle] else [])
    + (if l == "medium" then [WarnStyle] else [])
    + (if l == "low" then [SuccessStyle] else [])
    + (if l !in ["high", "medium", "low"] then [NeutralStyle] else [])
  }

  // ---------------------------------------------------------------------
  // Rendering

  datatype TitleView = Titled(text: string) | Untitled

  datatype DescriptionView =
    | NoDescription
    | Description(text: string, expanded: bool, toggleLabel: string, clamped: bool, copyKey: string, copied: bool)

  datatype PriorityBadge = PriorityBadge(styles: seq<PriorityStyle>, icon: Icon, text: string)

  datatype TaskCard = TaskCard(
    key: string, icon: Icon, title: TitleView,
    titleCopyValue: string, titleCopyKey: string, titleCopied: bool,
    description: DescriptionView, badge: Option<PriorityBadge>)

  datatype TaskListView = Placeholder(message: string) | Cards(cards: seq<TaskCard>)

  const NoTasksMessage: string := "No tasks available."

  /** One task card, given the expansion map and the key of the last copy. */
  function RenderCard(task: Task, expanded: map<string, bool>, copiedId: Option<string>): (c: TaskCard)
    ensures c.key == task.id && c.icon == PriorityIcon(task.priority)
    ensures c.title == Untitled <==> !Text.Truthy(task.title)
    ensures c.title.Titled? ==> c.title.text == task.title.value
    ensures c.titleCopyValue == (if Text.Truthy(task.title) then task.title.value else "")
    ensures c.titleCopied <==> copiedId == Some(TitleKey(task.id))
    ensures c.description.Description? <==> Text.Truthy(task.description)
    ensures c.description.Description? ==>
      c.description.text == task.description.value &&
      c.description.expanded == IsExpanded(expanded, task.id) &&
      c.description.clamped == !c.description.expanded &&
      c.description.toggleLabel == (if c.description.expanded then "Collapse" else "Expand") &&
      (c.description.copied <==> copiedId == Some(DescKey(task.id)))
    ensures c.badge.Some? <==> Text.Truthy(task.priority)
    ensures c.badge.Some? ==> |c.badge.value.styles| == 1 && c.badge.value.text == "Priority: " + task.priority.value
    ensures c.badge.Some? ==> c.badge.value.styles == PriorityStyles(task.priority.value) && c.badge.value.icon == PriorityIcon(task.priority)
    ensures c.titleCopyKey == TitleKey(task.id)
    ensures c.description.Description? ==> c.description.copyKey == DescKey(task.id)
  {
    var isOpen := IsExpanded(expanded, task.id);
    TaskCard(
      task.id,
      PriorityIcon(task.priority),
      if Text.Truthy(task.title) then Titled(task.title.value) else Untitled,
      if Text.Truthy(task.title) then task.title.value else "",
      TitleKey(task.id),
      copiedId == Some(TitleKey(task.id)),
      if Text.Truthy(task.description) then
        Description(task.description.value, isOpen, if isOpen then "Collapse" else "Expand", !isOpen,
                    DescKey(task.id), copiedId == Some(DescKey(task.id)))
      else NoDescription,
      if Text.Truthy(task.priority) then
        Some(PriorityBadge(PriorityStyles(task.priority.value), PriorityIcon(task.priority), "Priority: " + task.priority.value))
      else None)
  }

  /** `<TaskList tasks={tasks} />`. */
  function Render(tasks: Option<seq<Task>>, expanded: map<string, bool>, copiedId: Option<string>): (v: TaskListView)
    ensures v.Placeholder? <==> tasks.None? || tasks.value == []
    ensures v.Placeholder? ==> v.message == NoTasksMessage
    ensures v.Cards? ==> |v.cards| == |tasks.value|
    ensures v.Cards? ==> forall k :: 0 <= k < |v.cards| ==> v.cards[k] == RenderCard(tasks.value[k], expanded, copiedId)
  {
    if tasks.None? || tasks.value == [] then Placeholder(NoTasksMessage)
    else
      var ts := tasks.value;
      Cards(seq(|ts|, k requires 0 <= k < |ts| => RenderCard(ts[k], expanded, copiedId)))
  }

  predicate DistinctIds(tasks: seq<Task>) {
    forall j, k :: 0 <= j < k < |tasks| ==> tasks[j].id != tasks[k].id
  }

  /** The description copy indicator of card `k` is on. */
  predicate DescCopied(c: TaskCard) {
    c.description.Description? && c.description.copied
  }

  /**
   * With distinct task ids, at most one copy button in the whole list shows
   * the "copied" indicator: the one whose key is `copiedId`.
   */
  lemma AtMostOneCopiedIndicator(tasks: seq<Task>, expanded: map<string, bool>, copiedId: Option<string>)
    requires DistinctIds(tasks)
    ensures var v := Render(Some(tasks), expanded, copiedId);
      v.Cards? ==>
        (forall j, k :: 0 <= j < |v.cards| && 0 <= k < |v.cards| && v.cards[j].titleCopied && v.cards[k].titleCopied ==> j == k) &&
        (forall j, k :: 0 <= j < |v.cards| && 0 <= k < |v.cards| && DescCopied(v.cards[j]) && DescCopied(v.cards[k]) ==> j == k) &&
        (forall j, k :: 0 <= j < |v.cards| && 0 <= k < |v.cards| ==> !(v.cards[j].titleCopied && DescCopied(v.cards[k])))
  {
    var v := Render(Some(tasks), expanded, copiedId);
    if v.Cards? {
      forall j, k | 0 <= j < |v.cards| && 0 <= k < |v.cards| && v.cards[j].titleCopied && v.cards[k].titleCopied
        ensures j == k
      {
        TitleKeyInjective(tasks[j].id, tasks[k].id);
      }
      forall j, k | 0 <= j < |v.cards| && 0 <= k < |v.cards| && DescCopied(v.cards[j]) && DescCopied(v.cards[k])
        ensures j == k
      {
        DescKeyInjective(tasks[j].id, tasks[k].id);
      }
      forall j, k | 0 <= j < |v.cards| && 0 <= k < |v.cards|
        ensures !(v.cards[j].titleCopied && DescCopied(v.cards[k]))
      {
        TitleKeyIsNotDescKey(tasks[j].id, tasks[k].id);
      }
    }
  }

  /** Tasks sharing an id share their expansion flag: the source keys state by id alone. */
  lemma DuplicateIdsShareExpansion(a: Task, b: Task, expanded: map<string, bool>, copiedId: Option<string>)
    requires a.id == b.id && Text.Truthy(a.description) && Text.Truthy(b.description)
    ensures RenderCard(a, expanded, copiedId).description.expanded == RenderCard(b, expanded, copiedId).description.expanded
  {
  }
}
