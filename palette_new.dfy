/**
 * The palette component (src/components/CommandPaletteNew.tsx): the clamped
 * cursor moves, what Enter does to the row under the cursor, entering and
 * leaving command mode, closing, and the cursor reset when the rows change.
 * Every handler works on the hook's state, a `PaletteState.Palette`.
 */
module PaletteNew {
  import opened Wrappers
  import opened Strings
  import opened Seqs
  import opened CommandTypes
  import opened BaseCommand
  import opened Commands
  import opened CommandRegistry
  import opened PaletteState
  import PreviousTabCommand
  import CloseDuplicateTabsCommand
  import CloseTabCommand
  import CloseMultipleTabsCommand
  import NewTabCommand
  import CreateTabGroupCommand
  import DeleteTabGroupCommand
  import SearchCommand
  import OpenUrlCommand
  import CloseCurrentTabCommand

  /** How far PageUp and PageDown move the cursor. */
  const PageSize: int := 10

  const SuggestionSuffix: string := "-suggestion"

  /** `Math.max(0, index - 1)`. */
  function MoveUp(index: int): (r: int)
    ensures r >= 0
    ensures index > 0 ==> r == index - 1
  {
    if index - 1 > 0 then index - 1 else 0
  }

  /** `Math.min(total - 1, index + 1)`: on an empty list this is -1. */
  function MoveDown(index: int, total: int): (r: int)
    ensures r <= total - 1
    ensures index < total - 1 ==> r == index + 1
  {
    if total - 1 < index + 1 then total - 1 else index + 1
  }

  /** `Math.max(0, total - 1)`. */
  function MoveToLast(total: int): (r: int)
    ensures r >= 0 && (total > 0 ==> r == total - 1)
  {
    if total - 1 > 0 then total - 1 else 0
  }

  /** `Math.max(0, index - 10)`. */
  function PageUp(index: int): (r: int)
    ensures r >= 0
    ensures index >= PageSize ==> r == index - PageSize
  {
    if index - PageSize > 0 then index - PageSize else 0
  }

  /** `Math.min(total - 1, index + 10)`. */
  function PageDown(index: int, total: int): (r: int)
    ensures r <= total - 1
    ensures index + PageSize <= total - 1 ==> r == index + PageSize
  {
    if total - 1 < index + PageSize then total - 1 else index + PageSize
  }

  /** From a row of a non-empty list, every move lands on a row of that list. */
  lemma CursorStaysOnRows(index: int, total: int)
    requires 0 <= index < total
    ensures 0 <= MoveUp(index) < total && 0 <= MoveDown(index, total) < total
    ensures 0 <= PageUp(index) < total && 0 <= PageDown(index, total) < total
    ensures 0 <= MoveToLast(total) < total
  {
  }

  /** The cursor clamps at both ends and never wraps around. */
  lemma CursorClamps(total: int)
    requires total > 0
    ensures MoveUp(0) == 0 && PageUp(0) == 0
    ensures MoveDown(total - 1, total) == total - 1 && PageDown(total - 1, total) == total - 1
  {
  }

  /** On an empty list, moving down puts the cursor at -1, which names no row. */
  lemma MoveDownOnEmpty(index: int)
    requires index >= -1
    ensures MoveDown(index, 0) == -1
  {
  }

  /** Away from the ends, down undoes up and up undoes down. */
  lemma UpDownInverse(index: int, total: int)
    ensures 0 < index < total ==> MoveDown(MoveUp(index), total) == index
    ensures 0 <= index < total - 1 ==> MoveUp(MoveDown(index, total)) == index
    ensures PageSize <= index < total ==> PageDown(PageUp(index), total) == index
    ensures 0 <= index && index + PageSize < total ==> PageUp(PageDown(index, total)) == index
  {
  }

  /** The messages the component itself sends to the background script. */
  datatype Message =
    | NoMessage
    | SwitchToTab(tabId: int)
    | CloseTab(tabId: int)
    /** A request a command sends, or the OPEN_URL an action sends. */
    | Background(request: Request)

  /** Running an action item's `action()`. */
  function RunEffect(effect: Effect): (m: Message)
    ensures effect.NoEffect? <==> m == NoMessage
  {
    match effect
    case NoEffect => NoMessage
    case OpenUrlEffect(url) => Background(OpenUrl(url))
  }

  /**
   * What activating a row did: the message sent, whether `onClose` ran, the
   * new state, and which lists a command it ran fetches again.
   */
  datatype Activation = Activation(sent: Message, closed: bool, after: View, refresh: Refresh)

  /** `searchResults[activeItemIndex]`: the row under the cursor, if the index names one. */
  function RowAt(results: seq<Item>, index: int): (r: Option<Item>)
    ensures r.None? <==> !(0 <= index < |results|)
    ensures r.Some? ==> r.value in results
  {
    if 0 <= index < |results| then Some(results[index]) else None
  }

  /**
   * Locking a command: command mode on, the command active, the query and
   * the selection cleared.
   */
  function EnterCommandModeWith(v: View, commandId: string): (r: View)
    ensures r.commandMode && r.activeCommand == Some(commandId) && r.query == "" && r.selectedTabIds == {}
    ensures r.tabs == v.tabs && r.tabGroups == v.tabGroups && r.activeItemIndex == v.activeItemIndex
  {
    v.(commandMode := true, activeCommand := Some(commandId), query := "", selectedTabIds := {})
  }

  /** `handleExitCommandMode`: command mode off, no command active, no selection. */
  function ExitCommandMode(v: View): (r: View)
    ensures !r.commandMode && r.activeCommand.None? && r.selectedTabIds == {}
    ensures r.query == v.query && r.tabs == v.tabs && r.tabGroups == v.tabGroups && r.activeItemIndex == v.activeItemIndex
  {
    v.(commandMode := false, activeCommand := None, selectedTabIds := {})
  }

  /**
   * Once a command is locked, it is the current command whatever is typed
   * next, as long as its id is registered and not empty.
   */
  lemma EnteringLocksCommand(v: View, commandId: string, query: string, commands: OrderedMap<string, Command>, byAlias: OrderedMap<string, Command>)
    requires commands.Valid() && byAlias.Valid()
    requires commandId != "" && commandId in commands.keys
    ensures CurrentCommandOf(EnterCommandModeWith(v, commandId).(query := query), commands, byAlias) == Some(commands.values[commandId])
  {
    var w := EnterCommandModeWith(v, commandId).(query := query);
    assert Truthy(w.activeCommand);
  }

  /** After leaving command mode, the current command is resolved from the query again. */
  lemma ExitingUnlocksCommand(v: View, commands: OrderedMap<string, Command>, byAlias: OrderedMap<string, Command>)
    requires commands.Valid() && byAlias.Valid()
    ensures CurrentCommandOf(ExitCommandMode(v), commands, byAlias) == Resolve(commands, byAlias, v.query)
  {
  }

  /**
   * Entering and then leaving command mode leaves the query empty and the
   * rest of the state as it was, except that the selection is gone.
   */
  lemma EnterThenExit(v: View, commandId: string)
    ensures ExitCommandMode(EnterCommandModeWith(v, commandId)) == v.(query := "", commandMode := false, activeCommand := None, selectedTabIds := {})
  {
  }

  /** The command a suggestion row runs: the current command if there is one, else the one its id names. */
  function SuggestedCommand(current: Option<Command>, commands: OrderedMap<string, Command>, itemId: string): (r: Option<Command>)
    requires commands.Valid()
    ensures current.Some? ==> r == current
  {
    if current.Some? then current else commands.Get(ReplaceFirst(itemId, SuggestionSuffix, ""))
  }

  /** Stripping the suffix from a suggestion id gives back the command id, when that id has no '-'. */
  lemma StripSuggestion(id: string)
    requires '-' !in id
    ensures ReplaceFirst(id + SuggestionSuffix, SuggestionSuffix, "") == id
  {
    var s := id + SuggestionSuffix;
    assert OccursAt(s, SuggestionSuffix, |id|);
    var r := IndexOf(s, SuggestionSuffix);
    assert r.value <= |id|;
    assert s[r.value] == SuggestionSuffix[0] == '-';
    assert forall j :: 0 <= j < |id| ==> s[j] == id[j] != '-';
    assert s[..|id|] == id;
  }

  /** No command has a '-' in its id. */
  lemma IdHasNoDash(k: Kind)
    ensures '-' !in Info(k).id
  {
    match k
    case PreviousTab => PreviousTabCommand.IdHasNoDash();
    case CloseDuplicates => CloseDuplicateTabsCommand.IdHasNoDash();
    case CloseSingle => CloseTabCommand.IdHasNoDash();
    case CloseMultiple => CloseMultipleTabsCommand.IdHasNoDash();
    case NewTab => NewTabCommand.IdHasNoDash();
    case GroupTabs => CreateTabGroupCommand.IdHasNoDash();
    case DeleteGroup => DeleteTabGroupCommand.IdHasNoDash();
    case Search => SearchCommand.IdHasNoDash();
    case Url => OpenUrlCommand.IdHasNoDash();
    case CloseCurrent => CloseCurrentTabCommand.IdHasNoDash();
  }

  /**
   * With no current command, a command's suggestion row runs that very
   * command, provided it is registered under its id.
   */
  lemma SuggestionRunsItsCommand(c: Command, commands: OrderedMap<string, Command>)
    requires commands.Valid()
    requires c.info == Info(c.kind) && commands.Get(c.info.id) == Some(c)
    ensures SuggestedCommand(None, commands, SuggestionId(c.info)) == Some(c)
  {
    IdHasNoDash(c.kind);
    StripSuggestion(c.info.id);
  }

  /**
   * `handleExecuteSelected` on state `v`: nothing without a row under the
   * cursor; a tab row toggles in a multi-select command and otherwise
   * switches to the tab and closes; a suggestion row runs a single-execution
   * command or locks a command-mode one; another action row runs its action;
   * a close-tab row closes that tab and the palette; a group row does nothing.
   */
  function ActivationOf(v: View, registry: Registry, reply: Reply, env: Env): (r: Activation)
    requires registry.Valid()
    reads registry
    ensures RowAt(ResultsOf(v, registry.commands, registry.byAlias, env), v.activeItemIndex).None? ==> r == Activation(NoMessage, false, v, NoRefresh)
    ensures r.after.tabs == v.tabs && r.after.tabGroups == v.tabGroups && r.after.activeItemIndex == v.activeItemIndex
    ensures r.sent.SwitchToTab? || r.sent.CloseTab? ==> r.closed && r.after == v
  {
    RowActivation(v, registry, RowAt(ResultsOf(v, registry.commands, registry.byAlias, env), v.activeItemIndex),
      CurrentCommandOf(v, registry.commands, registry.byAlias), reply, env)
  }

  /** Enter on `row`, with `current` as the current command. */
  function RowActivation(v: View, registry: Registry, row: Option<Item>, current: Option<Command>, reply: Reply, env: Env): (r: Activation)
    requires registry.Valid()
    reads registry
    ensures row.None? ==> r == Activation(NoMessage, false, v, NoRefresh)
    ensures r.after.tabs == v.tabs && r.after.tabGroups == v.tabGroups && r.after.activeItemIndex == v.activeItemIndex
    ensures r.sent.SwitchToTab? || r.sent.CloseTab? ==> r.closed && r.after == v
  {
    match row
    case None => Activation(NoMessage, false, v, NoRefresh)
    case Some(TabItem(tab)) => TabActivation(v, current, tab)
    case Some(ActionItem(id, _, effect)) => ActionActivation(v, registry, current, id, effect, reply, env)
    case Some(CloseTabActionItem(tab, _, _)) => Activation(CloseTab(tab.id), true, v, NoRefresh)
    case Some(TabGroupItem(_, _, _)) => Activation(NoMessage, false, v, NoRefresh)
  }

  /** Enter on a tab row. */
  function TabActivation(v: View, current: Option<Command>, tab: Tab): (r: Activation)
    ensures r.after.(selectedTabIds := v.selectedTabIds) == v
  {
    if v.commandMode && current.Some? && current.value.info.multiSelect then
      Activation(NoMessage, false, v.(selectedTabIds := Toggled(v.selectedTabIds, tab.id)), NoRefresh)
    else Activation(SwitchToTab(tab.id), true, v, NoRefresh)
  }

  /** Enter on an action row: a suggestion runs or locks its command, any other runs its action. */
  function ActionActivation(v: View, registry: Registry, current: Option<Command>, id: string, effect: Effect, reply: Reply, env: Env): (r: Activation)
    requires registry.Valid()
    reads registry
    ensures r.after.tabs == v.tabs && r.after.tabGroups == v.tabGroups && r.after.activeItemIndex == v.activeItemIndex
    ensures !r.sent.SwitchToTab? && !r.sent.CloseTab?
  {
    if EndsWith(id, SuggestionSuffix) then
      match SuggestedCommand(current, registry.commands, id)
      case None => Activation(NoMessage, false, v, NoRefresh)
      case Some(command) => CommandActivation(v, registry, command, reply, env)
    else Activation(RunEffect(effect), false, v, NoRefresh)
  }

  /** Enter on a suggestion of `command`: a single-execution command runs, any other is locked. */
  function CommandActivation(v: View, registry: Registry, command: Command, reply: Reply, env: Env): (r: Activation)
    requires registry.Valid()
    reads registry
    ensures r.after.tabs == v.tabs && r.after.tabGroups == v.tabGroups && r.after.activeItemIndex == v.activeItemIndex
    ensures !r.sent.SwitchToTab? && !r.sent.CloseTab?
  {
    if command.info.mode == SingleExecution then
      var (request, result, refetched) := registry.ExecuteCommand(command.info.id, ExecutionContext(v), reply, env);
      Activation(Background(request), ClosesModal(result), AfterExecution(v, result), refetched)
    else Activation(NoMessage, false, EnterCommandModeWith(v, command.info.id), NoRefresh)
  }

  /**
   * In a multi-select command, Enter on a tab row flips that tab's
   * selection, sends nothing and keeps the palette open.
   */
  lemma EnterTogglesInMultiSelect(v: View, registry: Registry, reply: Reply, env: Env, tab: Tab)
    requires registry.Valid()
    requires RowAt(ResultsOf(v, registry.commands, registry.byAlias, env), v.activeItemIndex) == Some(TabItem(tab))
    requires v.commandMode
    requires CurrentCommandOf(v, registry.commands, registry.byAlias).Some?
    requires CurrentCommandOf(v, registry.commands, registry.byAlias).value.info.multiSelect
    ensures var a := ActivationOf(v, registry, reply, env);
      && a.sent == NoMessage && !a.closed
      && (tab.id in a.after.selectedTabIds <==> tab.id !in v.selectedTabIds)
      && a.after.(selectedTabIds := v.selectedTabIds) == v
  {
  }

  /** Outside a multi-select command, Enter on a tab row switches to it and closes, changing no state. */
  lemma EnterSwitchesToTab(v: View, registry: Registry, reply: Reply, env: Env, tab: Tab)
    requires registry.Valid()
    requires RowAt(ResultsOf(v, registry.commands, registry.byAlias, env), v.activeItemIndex) == Some(TabItem(tab))
    requires !v.commandMode || CurrentCommandOf(v, registry.commands, registry.byAlias).None?
      || !CurrentCommandOf(v, registry.commands, registry.byAlias).value.info.multiSelect
    ensures ActivationOf(v, registry, reply, env) == Activation(SwitchToTab(tab.id), true, v, NoRefresh)
  {
  }

  /**
   * Enter on the suggestion of a command-mode command locks it: command
   * mode on, that command active, an empty query and no selection; nothing
   * is sent and the palette stays open.
   */
  lemma EnterLocksCommandModeCommand(v: View, registry: Registry, reply: Reply, env: Env, item: Item, command: Command)
    requires registry.Valid()
    requires RowAt(ResultsOf(v, registry.commands, registry.byAlias, env), v.activeItemIndex) == Some(item)
    requires item.ActionItem? && EndsWith(item.id, SuggestionSuffix)
    requires SuggestedCommand(CurrentCommandOf(v, registry.commands, registry.byAlias), registry.commands, item.id) == Some(command)
    requires command.info.mode == CommandMode
    ensures ActivationOf(v, registry, reply, env) == Activation(NoMessage, false, EnterCommandModeWith(v, command.info.id), NoRefresh)
  {
  }

  /**
   * Enter on the suggestion of a single-execution command runs it through
   * the registry: its request is sent, the palette closes exactly when the
   * result is a success asking for it, and the state changes only as
   * `executeCommand` changes it.
   */
  lemma EnterRunsSingleExecution(v: View, registry: Registry, reply: Reply, env: Env, item: Item, command: Command)
    requires registry.Valid()
    requires RowAt(ResultsOf(v, registry.commands, registry.byAlias, env), v.activeItemIndex) == Some(item)
    requires item.ActionItem? && EndsWith(item.id, SuggestionSuffix)
    requires SuggestedCommand(CurrentCommandOf(v, registry.commands, registry.byAlias), registry.commands, item.id) == Some(command)
    requires command.info.mode == SingleExecution
    ensures var (request, result, refetched) := registry.ExecuteCommand(command.info.id, ExecutionContext(v), reply, env);
      ActivationOf(v, registry, reply, env) == Activation(Background(request), ClosesModal(result), AfterExecution(v, result), refetched)
  {
  }

  /** Enter on the Google fallback row opens the Google search for the query and keeps the palette open. */
  lemma EnterOnFallbackSearches(v: View, registry: Registry, reply: Reply, env: Env)
    requires registry.Valid()
    requires RowAt(ResultsOf(v, registry.commands, registry.byAlias, env), v.activeItemIndex) == Some(FallbackSearch(v.query, env))
    ensures ActivationOf(v, registry, reply, env) == Activation(Background(OpenUrl(GoogleSearchPrefix + env.encode(v.query))), false, v, NoRefresh)
  {
    assert !EndsWith(FallbackSearchId, SuggestionSuffix) by {
      assert FallbackSearchId[|FallbackSearchId| - 1] == 'h';
    }
  }

  /** `handleMoveUp`. */
  method HandleMoveUp(p: Palette)
    modifies p
    ensures p.State() == old(p.State()).(activeItemIndex := MoveUp(old(p.activeItemIndex)))
  {
    var index := p.activeItemIndex;
    p.SetActiveItemIndex(if index - 1 > 0 then index - 1 else 0);
  }

  /** `handleMoveDown`, with the current number of rows. */
  method HandleMoveDown(p: Palette, env: Env)
    requires p.Valid()
    modifies p
    ensures p.State() == old(p.State()).(activeItemIndex := MoveDown(old(p.activeItemIndex), old(p.TotalItems(env))))
  {
    var total := |p.Results(env)|;
    var index := p.activeItemIndex;
    p.SetActiveItemIndex(if total - 1 < index + 1 then total - 1 else index + 1);
  }

  /** `handleMoveToFirst`. */
  method HandleMoveToFirst(p: Palette)
    modifies p
    ensures p.State() == old(p.State()).(activeItemIndex := 0)
  {
    p.SetActiveItemIndex(0);
  }

  /** `handleMoveToLast`. */
  method HandleMoveToLast(p: Palette, env: Env)
    requires p.Valid()
    modifies p
    ensures p.State() == old(p.State()).(activeItemIndex := MoveToLast(old(p.TotalItems(env))))
  {
    var total := |p.Results(env)|;
    p.SetActiveItemIndex(if total - 1 > 0 then total - 1 else 0);
  }

  /** `handlePageUp`. */
  method HandlePageUp(p: Palette)
    modifies p
    ensures p.State() == old(p.State()).(activeItemIndex := PageUp(old(p.activeItemIndex)))
  {
    var index := p.activeItemIndex;
    p.SetActiveItemIndex(if index - PageSize > 0 then index - PageSize else 0);
  }

  /** `handlePageDown`. */
  method HandlePageDown(p: Palette, env: Env)
    requires p.Valid()
    modifies p
    ensures p.State() == old(p.State()).(activeItemIndex := PageDown(old(p.activeItemIndex), old(p.TotalItems(env))))
  {
    var total := |p.Results(env)|;
    var index := p.activeItemIndex;
    p.SetActiveItemIndex(if total - 1 < index + PageSize then total - 1 else index + PageSize);
  }

  /**
   * `handleExecuteSelected`, with Chrome's reply to a command's request and
   * the browser functions as inputs; returns the message sent and whether
   * the palette was closed.
   */
  method HandleExecuteSelected(p: Palette, reply: Reply, env: Env) returns (sent: Message, closed: bool, refresh: Refresh)
    requires p.Valid()
    modifies p
    ensures var a := ActivationOf(old(p.State()), p.registry, reply, env);
      sent == a.sent && closed == a.closed && refresh == a.refresh && p.State() == a.after
  {
    var results := p.Results(env);
    var row := RowAt(results, p.activeItemIndex);
    var current := p.CurrentCommand();
    sent, closed, refresh := ActivateRow(p, row, current, reply, env);
  }

  /** The dispatch on the kind of row in `handleExecuteSelected`. */
  method ActivateRow(p: Palette, row: Option<Item>, current: Option<Command>, reply: Reply, env: Env) returns (sent: Message, closed: bool, refresh: Refresh)
    requires p.Valid()
    modifies p
    ensures var a := RowActivation(old(p.State()), p.registry, row, current, reply, env);
      sent == a.sent && closed == a.closed && refresh == a.refresh && p.State() == a.after
  {
    match row
    case None =>
      return NoMessage, false, NoRefresh;
    case Some(TabItem(tab)) =>
      sent, closed, refresh := ActivateTab(p, current, tab);
    case Some(ActionItem(id, _, effect)) =>
      sent, closed, refresh := ActivateAction(p, current, id, effect, reply, env);
    case Some(CloseTabActionItem(tab, _, _)) =>
      return CloseTab(tab.id), true, NoRefresh;
    case Some(TabGroupItem(_, _, _)) =>
      return NoMessage, false, NoRefresh;
  }

  /** The tab-row branch of `handleExecuteSelected`. */
  method ActivateTab(p: Palette, current: Option<Command>, tab: Tab) returns (sent: Message, closed: bool, refresh: Refresh)
    modifies p
    ensures var a := TabActivation(old(p.State()), current, tab);
      sent == a.sent && closed == a.closed && refresh == a.refresh && p.State() == a.after
  {
    if p.commandMode && current.Some? && current.value.info.multiSelect {
      p.ToggleTabSelection(tab.id);
      return NoMessage, false, NoRefresh;
    }
    return SwitchToTab(tab.id), true, NoRefresh;
  }

  /** The action-row branch of `handleExecuteSelected`. */
  method ActivateAction(p: Palette, current: Option<Command>, id: string, effect: Effect, reply: Reply, env: Env) returns (sent: Message, closed: bool, refresh: Refresh)
    requires p.Valid()
    modifies p
    ensures var a := ActionActivation(old(p.State()), p.registry, current, id, effect, reply, env);
      sent == a.sent && closed == a.closed && refresh == a.refresh && p.State() == a.after
  {
    if !EndsWith(id, SuggestionSuffix) {
      return RunEffect(effect), false, NoRefresh;
    }
    var command := if current.Some? then current else p.registry.GetCommand(ReplaceFirst(id, SuggestionSuffix, ""));
    if command.None? {
      return NoMessage, false, NoRefresh;
    }
    sent, closed, refresh := ActivateCommand(p, command.value, reply, env);
  }

  /** A suggestion's command: runs it when it is single-execution, otherwise locks it. */
  method ActivateCommand(p: Palette, command: Command, reply: Reply, env: Env) returns (sent: Message, closed: bool, refresh: Refresh)
    requires p.Valid()
    modifies p
    ensures var a := CommandActivation(old(p.State()), p.registry, command, reply, env);
      sent == a.sent && closed == a.closed && refresh == a.refresh && p.State() == a.after
  {
    if command.info.mode == SingleExecution {
      var request;
      request, closed, refresh := p.ExecuteCommand(command.info.id, reply, env);
      return Background(request), closed, refresh;
    }
    p.SetCommandMode(true);
    p.SetActiveCommand(Some(command.info.id));
    p.SetQuery("");
    p.ClearSelection();
    return NoMessage, false, NoRefresh;
  }

  /** `handleToggleSelection`: flips the selection of the tab under the cursor; any other row is ignored. */
  method HandleToggleSelection(p: Palette, env: Env)
    requires p.Valid()
    modifies p
    ensures var row := RowAt(old(p.Results(env)), old(p.activeItemIndex));
      && (row.Some? && row.value.TabItem? ==>
            p.State() == old(p.State()).(selectedTabIds := Toggled(old(p.selectedTabIds), row.value.tab.id)))
      && (row.None? || !row.value.TabItem? ==> p.State() == old(p.State()))
  {
    var results := p.Results(env);
    var index := p.activeItemIndex;
    if 0 <= index < |results| && results[index].TabItem? {
      p.ToggleTabSelection(results[index].tab.id);
    }
  }

  /** `handleEnterCommandMode`: locks the current command only when it is a command-mode command. */
  method HandleEnterCommandMode(p: Palette)
    requires p.Valid()
    modifies p
    ensures var current := old(p.CurrentCommand());
      && (current.Some? && current.value.info.mode == CommandMode ==>
            p.State() == EnterCommandModeWith(old(p.State()), current.value.info.id))
      && (current.None? || current.value.info.mode != CommandMode ==> p.State() == old(p.State()))
  {
    var current := p.CurrentCommand();
    if current.Some? && current.value.info.mode == CommandMode {
      p.SetCommandMode(true);
      p.SetActiveCommand(Some(current.value.info.id));
      p.SetQuery("");
      p.ClearSelection();
    }
  }

  /** `handleExitCommandMode`. */
  method HandleExitCommandMode(p: Palette)
    modifies p
    ensures p.State() == ExitCommandMode(old(p.State()))
  {
    p.SetCommandMode(false);
    p.SetActiveCommand(None);
    p.ClearSelection();
  }

  /** `handleCloseModal`: resets the state and closes the palette. */
  method HandleCloseModal(p: Palette) returns (closed: bool)
    modifies p
    ensures closed && p.State() == ResetView(old(p.State()))
  {
    p.Reset();
    closed := true;
  }

  /** The rows do not depend on the cursor, so moving it never counts as a change of rows. */
  lemma ResultsIgnoreCursor(v: View, index: int, commands: OrderedMap<string, Command>, byAlias: OrderedMap<string, Command>, env: Env)
    requires commands.Valid() && byAlias.Valid()
    ensures ResultsOf(v.(activeItemIndex := index), commands, byAlias, env) == ResultsOf(v, commands, byAlias, env)
  {
  }

  /**
   * The effect that puts the cursor back on the first row when the rows
   * differ from those of the previous render (`shown`).
   */
  method ResetIndexOnNewResults(p: Palette, shown: seq<Item>, env: Env)
    requires p.Valid()
    modifies p
    ensures old(p.Results(env)) != shown ==> p.State() == old(p.State()).(activeItemIndex := 0)
    ensures old(p.Results(env)) == shown ==> p.State() == old(p.State())
  {
    var results := p.Results(env);
    if results != shown {
      p.SetActiveItemIndex(0);
    }
  }
}
