/**
 * The palette's business state (src/hooks/useCommandPalette.ts): the query,
 * the fetched tabs and groups, the cursor, command mode and the locked
 * command, the set of selected tabs; the current command and the result list
 * derived from them; and the selection and execution actions.
 *
 * React state is modelled as the fields of one object. A derived value
 * (`currentCommand`, `searchResults`) is a function of those fields, computed
 * afresh whenever it is read.
 */
module PaletteState {
  import opened Wrappers
  import opened Strings
  import opened Seqs
  import opened CommandTypes
  import opened BaseCommand
  import opened Commands
  import opened CommandRegistry
  import CommandIndex

  /** How many tabs a blank query lists. */
  const RecentTabsShown: nat := 10
  /** How many matching tabs follow the command suggestions. */
  const MatchingTabsShown: nat := 5

  const FallbackSearchId: string := "fallback-google-search"
  const GoogleSearchPrefix: string := "https://www.google.com/search?q="

  /** The hook's state variables, as one value. */
  datatype View = View(
    query: string,
    tabs: seq<Tab>,
    tabGroups: seq<TabGroup>,
    activeItemIndex: int,
    commandMode: bool,
    activeCommand: Option<string>,
    selectedTabIds: set<int>)

  /** The state when the hook mounts. */
  const Initial: View := View("", [], [], 0, false, None, {})

  /** A JavaScript `string | null` used as a condition: set and non-empty. */
  predicate Truthy(s: Option<string>)
  {
    s.Some? && s.value != ""
  }

  /**
   * `currentCommand`: a locked `activeCommand` is looked up by id, and the
   * query is not consulted; otherwise the query is parsed.
   */
  function CurrentCommandOf(v: View, commands: OrderedMap<string, Command>, byAlias: OrderedMap<string, Command>): (r: Option<Command>)
    requires commands.Valid() && byAlias.Valid()
    ensures Truthy(v.activeCommand) ==> (r.Some? <==> v.activeCommand.value in commands.keys)
    ensures Truthy(v.activeCommand) && r.Some? ==> r.value == commands.values[v.activeCommand.value]
    ensures !Truthy(v.activeCommand) ==> r == Resolve(commands, byAlias, v.query)
  {
    if Truthy(v.activeCommand) then commands.Get(v.activeCommand.value)
    else ParsedQuery(commands, byAlias, v.query).0
  }

  /** While a command is locked, editing the query never changes the current command. */
  lemma LockedCommandIgnoresQuery(v: View, query: string, commands: OrderedMap<string, Command>, byAlias: OrderedMap<string, Command>)
    requires commands.Valid() && byAlias.Valid()
    requires Truthy(v.activeCommand)
    ensures CurrentCommandOf(v.(query := query), commands, byAlias) == CurrentCommandOf(v, commands, byAlias)
  {
  }

  /** The `CommandContext` a command's `getSearchResults` receives. */
  function SearchContext(v: View): CommandContext
  {
    CommandContext(v.tabs, v.tabGroups, v.selectedTabIds, v.query, v.commandMode, v.activeCommand)
  }

  /** The `CommandExecutionContext` `executeCommand` builds; no group is preselected. */
  function ExecutionContext(v: View): ExecContext
  {
    ExecContext(v.query, v.selectedTabIds, v.commandMode, v.tabGroups, None)
  }

  /** The filter applied in command mode: drop tab items for a selected tab. */
  function NotSelectedTab(selected: set<int>): Item -> bool
  {
    (item: Item) => !(item.TabItem? && item.tab.id in selected)
  }

  /** The last-resort row: search Google for the whole query. */
  function FallbackSearch(query: string, env: Env): Item
  {
    ActionItem(FallbackSearchId, "Search \"" + query + "\" on Google", OpenUrlEffect(GoogleSearchPrefix + env.encode(query)))
  }

  /** The command suggestions for a non-blank query, in registration order. */
  function SuggestionsFor(commands: OrderedMap<string, Command>, query: string, env: Env): seq<Item>
    requires commands.Valid()
  {
    AllSuggestions(Registered(commands), query, env)
  }

  /** The tabs listed after the suggestions. */
  function MatchingTabItems(tabs: seq<Tab>, query: string): seq<Item>
  {
    TabItems(Take(MatchingTabs(tabs, Lower(query)), MatchingTabsShown))
  }

  /**
   * `searchResults`: the current command's own results (in command mode with
   * a selection, without the selected tabs); with no command, the first ten
   * tabs for a blank query; otherwise the suggestions, up to five matching
   * tabs and, when nothing was suggested, the Google fallback.
   */
  function ResultsOf(v: View, commands: OrderedMap<string, Command>, byAlias: OrderedMap<string, Command>, env: Env): (r: seq<Item>)
    requires commands.Valid() && byAlias.Valid()
    ensures CurrentCommandOf(v, commands, byAlias).None? && IsBlank(v.query) ==>
      |r| == (if |v.tabs| < RecentTabsShown then |v.tabs| else RecentTabsShown)
      && forall i :: 0 <= i < |r| ==> r[i] == TabItem(v.tabs[i])
    ensures CurrentCommandOf(v, commands, byAlias).None? && !IsBlank(v.query) ==> r != []
  {
    match CurrentCommandOf(v, commands, byAlias)
    case Some(c) => CommandRows(v, SearchResults(c.kind, SearchContext(v), env))
    case None => QueryRows(v, SuggestionsFor(commands, v.query, env), env)
  }

  /** The rows of the current command: without the selected tabs in command mode with a selection. */
  function CommandRows(v: View, results: seq<Item>): seq<Item>
  {
    if v.commandMode && |v.selectedTabIds| > 0 then Filter(results, NotSelectedTab(v.selectedTabIds))
    else results
  }

  /**
   * The rows with no current command, given the suggestions for the query:
   * the first ten tabs for a blank query, otherwise never empty.
   */
  function QueryRows(v: View, suggestions: seq<Item>, env: Env): (r: seq<Item>)
    ensures IsBlank(v.query) ==>
      |r| == (if |v.tabs| < RecentTabsShown then |v.tabs| else RecentTabsShown)
      && forall i :: 0 <= i < |r| ==> r[i] == TabItem(v.tabs[i])
    ensures !IsBlank(v.query) ==> r != []
  {
    if IsBlank(v.query) then TabItems(Take(v.tabs, RecentTabsShown))
    else suggestions + MatchingTabItems(v.tabs, v.query) + (if suggestions == [] then [FallbackSearch(v.query, env)] else [])
  }

  /**
   * In command mode, the results of the current command show no selected
   * tab, and keep every row of the command's own results that is not a tab.
   */
  lemma SelectedTabsHidden(v: View, commands: OrderedMap<string, Command>, byAlias: OrderedMap<string, Command>, env: Env)
    requires commands.Valid() && byAlias.Valid()
    requires v.commandMode && CurrentCommandOf(v, commands, byAlias).Some?
    ensures forall item :: item in ResultsOf(v, commands, byAlias, env) && item.TabItem? ==> item.tab.id !in v.selectedTabIds
    ensures forall item :: item in SearchResults(CurrentCommandOf(v, commands, byAlias).value.kind, SearchContext(v), env) && !item.TabItem? ==>
      item in ResultsOf(v, commands, byAlias, env)
    ensures forall item :: item in ResultsOf(v, commands, byAlias, env) ==>
      item in SearchResults(CurrentCommandOf(v, commands, byAlias).value.kind, SearchContext(v), env)
  {
    var results := SearchResults(CurrentCommandOf(v, commands, byAlias).value.kind, SearchContext(v), env);
    var r := ResultsOf(v, commands, byAlias, env);
    if |v.selectedTabIds| > 0 {
      assert r == Filter(results, NotSelectedTab(v.selectedTabIds));
      FilterDropsSelected(results, v.selectedTabIds);
    } else {
      assert r == results;
    }
  }

  /** Filtering out the selected tabs keeps exactly the other rows. */
  lemma FilterDropsSelected(results: seq<Item>, selected: set<int>)
    ensures forall item :: item in Filter(results, NotSelectedTab(selected)) <==>
      item in results && !(item.TabItem? && item.tab.id in selected)
  {
  }

  /** Outside command mode, a command's own results are shown as they are. */
  lemma CommandResultsUnfiltered(v: View, commands: OrderedMap<string, Command>, byAlias: OrderedMap<string, Command>, env: Env)
    requires commands.Valid() && byAlias.Valid()
    requires !v.commandMode && CurrentCommandOf(v, commands, byAlias).Some?
    ensures ResultsOf(v, commands, byAlias, env) == SearchResults(CurrentCommandOf(v, commands, byAlias).value.kind, SearchContext(v), env)
  {
  }

  /** Every suggestion is an action item whose id ends in "-suggestion". */
  lemma SuggestionShape(commands: OrderedMap<string, Command>, query: string, env: Env, item: Item)
    requires commands.Valid()
    requires item in SuggestionsFor(commands, query, env)
    ensures item.ActionItem? && EndsWith(item.id, "-suggestion")
  {
    AllSuggestionsMembers(Registered(commands), query, env, item);
    var k :| k in Registered(commands) && Matches(k.info, query)
      && item == ActionItem(SuggestionId(k.info), DisplayTitle(k.kind, query, env), NoEffect);
    assert item.id[|item.id| - 11..] == "-suggestion";
  }

  /**
   * With no command and a non-blank query, the suggestions come first and
   * are followed by at most five tabs, each of which matches the query,
   * and at most the one fallback row.
   */
  lemma SuggestionsThenTabs(v: View, commands: OrderedMap<string, Command>, byAlias: OrderedMap<string, Command>, env: Env)
    requires commands.Valid() && byAlias.Valid()
    requires CurrentCommandOf(v, commands, byAlias).None? && !IsBlank(v.query)
    ensures var r := ResultsOf(v, commands, byAlias, env);
      var s := SuggestionsFor(commands, v.query, env);
      && |s| <= |r| && r[..|s|] == s
      && |r| <= |s| + MatchingTabsShown + 1
      && (forall i :: |s| <= i < |r| && r[i].TabItem? ==> r[i].tab in v.tabs && TabMatches(r[i].tab, Lower(v.query)))
  {
    var s := SuggestionsFor(commands, v.query, env);
    var tail := if s == [] then [FallbackSearch(v.query, env)] else [];
    NoCommandRows(v, commands, byAlias, env);
    assert ResultsOf(v, commands, byAlias, env) == s + MatchingTabItems(v.tabs, v.query) + tail;
    TabsAfterSuggestions(s, v.tabs, v.query, tail);
  }

  /** With no command and a non-blank query, the three parts of the result list. */
  lemma NoCommandRows(v: View, commands: OrderedMap<string, Command>, byAlias: OrderedMap<string, Command>, env: Env)
    requires commands.Valid() && byAlias.Valid()
    requires CurrentCommandOf(v, commands, byAlias).None? && !IsBlank(v.query)
    ensures var s := SuggestionsFor(commands, v.query, env);
      ResultsOf(v, commands, byAlias, env) == s + MatchingTabItems(v.tabs, v.query) + (if s == [] then [FallbackSearch(v.query, env)] else [])
  {
  }

  /** Rows made of `s`, the matching tabs and a tail of at most one non-tab row. */
  lemma TabsAfterSuggestions(s: seq<Item>, tabs: seq<Tab>, query: string, tail: seq<Item>)
    requires |tail| <= 1 && forall i :: 0 <= i < |tail| ==> !tail[i].TabItem?
    ensures var r := s + MatchingTabItems(tabs, query) + tail;
      && |s| <= |r| && r[..|s|] == s
      && |r| <= |s| + MatchingTabsShown + 1
      && (forall i :: |s| <= i < |r| && r[i].TabItem? ==> r[i].tab in tabs && TabMatches(r[i].tab, Lower(query)))
  {
    var r := s + MatchingTabItems(tabs, query) + tail;
    var m := MatchingTabItems(tabs, query);
    var matching := Take(MatchingTabs(tabs, Lower(query)), MatchingTabsShown);
    assert r[..|s|] == s;
    forall i | |s| <= i < |r| && r[i].TabItem?
      ensures r[i].tab in tabs && TabMatches(r[i].tab, Lower(query))
    {
      if i < |s| + |m| {
        assert r[i] == m[i - |s|] == TabItem(matching[i - |s|]);
        assert matching[i - |s|] in MatchingTabs(tabs, Lower(query));
      }
    }
  }

  /**
   * With no command and a non-blank query, the Google fallback is the last
   * row exactly when no command made a suggestion.
   */
  lemma FallbackOnlyWithoutSuggestions(v: View, commands: OrderedMap<string, Command>, byAlias: OrderedMap<string, Command>, env: Env)
    requires commands.Valid() && byAlias.Valid()
    requires CurrentCommandOf(v, commands, byAlias).None? && !IsBlank(v.query)
    ensures var r := ResultsOf(v, commands, byAlias, env);
      r[|r| - 1] == FallbackSearch(v.query, env) <==> SuggestionsFor(commands, v.query, env) == []
  {
    var r := ResultsOf(v, commands, byAlias, env);
    var s := SuggestionsFor(commands, v.query, env);
    var m := MatchingTabItems(v.tabs, v.query);
    if s != [] {
      assert r == s + m;
      var last := r[|r| - 1];
      if m == [] {
        assert last in s;
        SuggestionShape(commands, v.query, env, last);
        assert last.id[|last.id| - 1] == 'n';
      } else {
        assert last == m[|m| - 1];
      }
    }
  }

  /** No command declares an empty alias. */
  lemma AliasesNonEmpty(k: Kind)
    ensures forall i :: 0 <= i < |Info(k).aliases| ==> Info(k).aliases[i] != []
  {
    match k
    case PreviousTab =>
    case CloseDuplicates =>
    case CloseSingle =>
    case CloseMultiple =>
    case NewTab =>
    case GroupTabs =>
    case DeleteGroup =>
    case Search =>
    case Url =>
    case CloseCurrent =>
  }

  /** Once the commands are registered, no key of the alias map is empty. */
  lemma AliasKeysNonEmpty(a0: OrderedMap<string, Command>)
    requires a0.Valid() && a0.keys == []
    ensures forall a :: a in PutAll(a0, CommandIndex.AliasWritesOf(CommandIndex.Registrations)).keys ==> a != []
  {
    var ops := CommandIndex.AliasWritesOf(CommandIndex.Registrations);
    forall a | a in PutAll(a0, ops).keys
      ensures a != []
    {
      PutAllGet(a0, ops, a);
      var i :| 0 <= i < |ops| && ops[i] == (a, LastValue(ops, a).value);
      AliasWriteNonEmpty(ops[i]);
    }
  }

  /** Every alias write made by the registrations has a non-empty key. */
  lemma AliasWriteNonEmpty(w: (string, Command))
    requires w in CommandIndex.AliasWritesOf(CommandIndex.Registrations)
    ensures w.0 != []
  {
    CommandIndex.AliasWritesOfMembers(CommandIndex.Registrations, w);
    var x, j :| 0 <= x < |CommandIndex.Registrations| && 0 <= j < |CommandIndex.Registrations[x].info.aliases|
      && w.0 == Lower(CommandIndex.Registrations[x].info.aliases[j]);
    AliasesNonEmpty(CommandIndex.Order[x]);
  }

  /**
   * Once the nine commands are registered, a blank query with no locked
   * command resolves to `previous_tab`, the first one registered (every alias
   * contains the empty string), and since that command lists nothing the
   * palette shows no rows at all: the "first ten tabs" branch is only
   * reached before the commands are registered.
   */
  lemma BlankQueryShowsNothing(c0: OrderedMap<string, Command>, a0: OrderedMap<string, Command>, v: View, env: Env)
    requires c0.Valid() && a0.Valid() && c0.keys == [] && a0.keys == []
    requires IsBlank(v.query) && !Truthy(v.activeCommand)
    ensures var commands := PutAll(c0, CommandIndex.IdWrites(CommandIndex.Registrations));
      var byAlias := PutAll(a0, CommandIndex.AliasWritesOf(CommandIndex.Registrations));
      && CurrentCommandOf(v, commands, byAlias) == Some(Make(PreviousTab))
      && ResultsOf(v, commands, byAlias, env) == []
  {
    var commands := PutAll(c0, CommandIndex.IdWrites(CommandIndex.Registrations));
    var byAlias := PutAll(a0, CommandIndex.AliasWritesOf(CommandIndex.Registrations));
    FirstRegistered(c0);
    AliasKeysNonEmpty(a0);
    BlankQueryFirstCommand(v, commands, byAlias, env);
  }

  /**
   * With no empty alias and `previous_tab` registered first, a blank query
   * with no locked command resolves to `previous_tab` and shows no rows.
   */
  lemma BlankQueryFirstCommand(v: View, commands: OrderedMap<string, Command>, byAlias: OrderedMap<string, Command>, env: Env)
    requires commands.Valid() && byAlias.Valid()
    requires IsBlank(v.query) && !Truthy(v.activeCommand)
    requires commands.keys != [] && Registered(commands)[0] == Make(PreviousTab)
    requires forall a :: a in byAlias.keys ==> a != []
    ensures CurrentCommandOf(v, commands, byAlias) == Some(Make(PreviousTab))
    ensures ResultsOf(v, commands, byAlias, env) == []
  {
    ResolveBlank(commands, byAlias, v.query);
    assert CurrentCommandOf(v, commands, byAlias) == Some(Make(PreviousTab));
    ResultsOfCommand(v, commands, byAlias, env, Make(PreviousTab));
    PreviousTabListsNothing(v, env);
  }

  /** With a current command, the rows are that command's rows. */
  lemma ResultsOfCommand(v: View, commands: OrderedMap<string, Command>, byAlias: OrderedMap<string, Command>, env: Env, c: Command)
    requires commands.Valid() && byAlias.Valid()
    requires CurrentCommandOf(v, commands, byAlias) == Some(c)
    ensures ResultsOf(v, commands, byAlias, env) == CommandRows(v, SearchResults(c.kind, SearchContext(v), env))
  {
  }

  /** `previous_tab` lists no rows, in command mode or not. */
  lemma PreviousTabListsNothing(v: View, env: Env)
    ensures CommandRows(v, SearchResults(PreviousTab, SearchContext(v), env)) == []
  {
    assert SearchResults(PreviousTab, SearchContext(v), env) == [];
  }

  /** `previous_tab` is the first command registered. */
  lemma FirstRegistered(c0: OrderedMap<string, Command>)
    requires c0.Valid() && c0.keys == []
    ensures PutAll(c0, CommandIndex.IdWrites(CommandIndex.Registrations)).keys != []
    ensures Registered(PutAll(c0, CommandIndex.IdWrites(CommandIndex.Registrations)))[0] == Make(PreviousTab)
  {
    var ops := CommandIndex.IdWrites(CommandIndex.Registrations);
    CommandIndex.InitialIds(c0);
    PreviousTabWrittenOnce();
    LastValueOnly(ops, 0, "previous_tab");
    PutAllGet(c0, ops, "previous_tab");
  }

  /** Only the first registration writes the id "previous_tab". */
  lemma PreviousTabWrittenOnce()
    ensures var ops := CommandIndex.IdWrites(CommandIndex.Registrations);
      && ops[0] == ("previous_tab", Make(PreviousTab))
      && forall j :: 0 < j < |ops| ==> ops[j].0 != "previous_tab"
  {
    var ops := CommandIndex.IdWrites(CommandIndex.Registrations);
    assert KeysOf(ops) == CommandIndex.Ids;
  }

  /** `toggleTabSelection(id)` on the set: adds `id` when absent, removes it when present. */
  function Toggled(selected: set<int>, id: int): (r: set<int>)
    ensures id in r <==> id !in selected
    ensures forall x :: x != id ==> (x in r <==> x in selected)
  {
    if id in selected then selected - {id} else selected + {id}
  }

  /** Toggling the same tab twice restores the selection. */
  lemma ToggleTwice(selected: set<int>, id: int)
    ensures Toggled(Toggled(selected, id), id) == selected
  {
  }

  /** Toggling two different tabs gives the same selection in either order. */
  lemma ToggleCommutes(selected: set<int>, a: int, b: int)
    ensures Toggled(Toggled(selected, a), b) == Toggled(Toggled(selected, b), a)
  {
  }

  /** `new Set(tabs.map(tab => tab.id))`: the id of every fetched tab. */
  function TabIdSet(tabs: seq<Tab>): (r: set<int>)
    ensures forall id :: id in r <==> exists i :: 0 <= i < |tabs| && tabs[i].id == id
  {
    set i | 0 <= i < |tabs| :: tabs[i].id
  }

  /** After `selectAll`, no fetched tab is missing from the selection. */
  lemma SelectAllCoversTabs(tabs: seq<Tab>, t: Tab)
    requires t in tabs
    ensures t.id in TabIdSet(tabs)
  {
    var i :| 0 <= i < |tabs| && tabs[i] == t;
  }

  /**
   * The state after a command's result comes back: on success with
   * `shouldEnterCommandMode` command mode is on, and the active command is
   * replaced only by a non-empty `newCommandName`; anything else, failures
   * included, leaves the state as it was.
   */
  function AfterExecution(v: View, result: ExecResult): (r: View)
    ensures !result.success || !result.shouldEnterCommandMode ==> r == v
    ensures result.success && result.shouldEnterCommandMode ==>
      r.commandMode && r.query == v.query && r.selectedTabIds == v.selectedTabIds
      && r.activeCommand == (if Truthy(result.newCommandName) then result.newCommandName else v.activeCommand)
  {
    if result.success && result.shouldEnterCommandMode then
      v.(commandMode := true, activeCommand := if Truthy(result.newCommandName) then result.newCommandName else v.activeCommand)
    else v
  }

  /** Whether the palette asks to be closed: only a success that says so. */
  predicate ClosesModal(result: ExecResult)
  {
    result.success && result.shouldCloseModal
  }

  /** `needsInput` and its dialog are ignored: they change neither the state nor whether the palette closes. */
  lemma NeedsInputIgnored(v: View, result: ExecResult, needsInput: bool, inputConfig: Option<InputConfig>)
    ensures AfterExecution(v, result.(needsInput := needsInput, inputConfig := inputConfig)) == AfterExecution(v, result)
    ensures ClosesModal(result.(needsInput := needsInput, inputConfig := inputConfig)) == ClosesModal(result)
  {
  }

  /** A state that has entered command mode stays there however often results come back. */
  lemma AfterExecutionKeepsCommandMode(v: View, result: ExecResult)
    requires v.commandMode
    ensures AfterExecution(v, result).commandMode
  {
  }

  /** `reset`: the query, cursor, command mode, locked command and selection back to their initial values. */
  function ResetView(v: View): (r: View)
    ensures r.tabs == v.tabs && r.tabGroups == v.tabGroups
    ensures r == Initial.(tabs := v.tabs, tabGroups := v.tabGroups)
  {
    v.(query := "", activeItemIndex := 0, commandMode := false, activeCommand := None, selectedTabIds := {})
  }

  /** Resetting twice is resetting once. */
  lemma ResetIdempotent(v: View)
    ensures ResetView(ResetView(v)) == ResetView(v)
  {
  }

  /** The React component state behind the hook, with the registry it consults. */
  class Palette {
    /** The shared command registry. */
    const registry: Registry
    var query: string
    var tabs: seq<Tab>
    var tabGroups: seq<TabGroup>
    var activeItemIndex: int
    var commandMode: bool
    var activeCommand: Option<string>
    var selectedTabIds: set<int>

    function State(): View
      reads this
    {
      View(query, tabs, tabGroups, activeItemIndex, commandMode, activeCommand, selectedTabIds)
    }

    ghost predicate Valid()
      reads this, registry
    {
      registry.Valid()
    }

    /** `currentCommand`. */
    function CurrentCommand(): Option<Command>
      requires Valid()
      reads this, registry
    {
      CurrentCommandOf(State(), registry.commands, registry.byAlias)
    }

    /** `searchResults`. */
    function Results(env: Env): seq<Item>
      requires Valid()
      reads this, registry
    {
      ResultsOf(State(), registry.commands, registry.byAlias, env)
    }

    /** `totalItems`. */
    function TotalItems(env: Env): nat
      requires Valid()
      reads this, registry
    {
      |Results(env)|
    }

    /** `hasSelection`. */
    function HasSelection(): bool
      reads this
    {
      |selectedTabIds| > 0
    }

    /**
     * Mounting the hook: the initial state, and `initializeCommands` run on
     * the shared registry.
     */
    constructor(registry: Registry)
      requires registry.Valid()
      modifies registry
      ensures this.registry == registry && Valid()
      ensures State() == Initial
      ensures registry.commands == PutAll(old(registry.commands), CommandIndex.IdWrites(CommandIndex.Registrations))
      ensures registry.byAlias == PutAll(old(registry.byAlias), CommandIndex.AliasWritesOf(CommandIndex.Registrations))
    {
      this.registry := registry;
      query := "";
      tabs := [];
      tabGroups := [];
      activeItemIndex := 0;
      commandMode := false;
      activeCommand := None;
      selectedTabIds := {};
      new;
      CommandIndex.InitializeCommands(registry);
    }

    /** `setQuery`: the immediate and the debounced write store the same value. */
    method SetQuery(q: string)
      modifies this
      ensures State() == old(State()).(query := q)
    {
      query := q;
    }

    method SetActiveItemIndex(index: int)
      modifies this
      ensures State() == old(State()).(activeItemIndex := index)
    {
      activeItemIndex := index;
    }

    method SetCommandMode(mode: bool)
      modifies this
      ensures State() == old(State()).(commandMode := mode)
    {
      commandMode := mode;
    }

    method SetActiveCommand(command: Option<string>)
      modifies this
      ensures State() == old(State()).(activeCommand := command)
    {
      activeCommand := command;
    }

    /** `fetchTabs` once its GET_TABS reply is in: any array replaces the tabs, no reply keeps them. */
    method FetchTabs(response: Option<seq<Tab>>)
      modifies this
      ensures response.Some? ==> State() == old(State()).(tabs := response.value)
      ensures response.None? ==> State() == old(State())
    {
      if response.Some? {
        tabs := response.value;
      }
    }

    /** `fetchTabGroups` once its GET_TAB_GROUPS reply is in. */
    method FetchTabGroups(response: Option<seq<TabGroup>>)
      modifies this
      ensures response.Some? ==> State() == old(State()).(tabGroups := response.value)
      ensures response.None? ==> State() == old(State())
    {
      if response.Some? {
        tabGroups := response.value;
      }
    }

    method ToggleTabSelection(tabId: int)
      modifies this
      ensures State() == old(State()).(selectedTabIds := Toggled(old(selectedTabIds), tabId))
    {
      if tabId in selectedTabIds {
        selectedTabIds := selectedTabIds - {tabId};
      } else {
        selectedTabIds := selectedTabIds + {tabId};
      }
    }

    method ClearSelection()
      modifies this
      ensures State() == old(State()).(selectedTabIds := {})
    {
      selectedTabIds := {};
    }

    /** `selectAll`: the ids of the current tabs, collected one by one. */
    method SelectAll()
      modifies this
      ensures State() == old(State()).(selectedTabIds := TabIdSet(old(tabs)))
    {
      var ids: set<int> := {};
      var all := tabs;
      for i := 0 to |all|
        invariant ids == set j | 0 <= j < i :: all[j].id
      {
        ids := ids + {all[i].id};
      }
      selectedTabIds := ids;
    }

    /**
     * `executeCommand(commandId)`: runs the command through the registry with
     * the current query, selection, mode and groups; returns the request it
     * sent to the background script, whether `onClose` was called, and which
     * of `fetchTabs` / `fetchTabGroups` the command called (their answers
     * arrive later, through `FetchTabs` and `FetchTabGroups`).
     */
    method ExecuteCommand(commandId: string, reply: Reply, env: Env) returns (sent: Request, closed: bool, refresh: Refresh)
      requires Valid()
      modifies this
      ensures var (request, result, refetched) := registry.ExecuteCommand(commandId, ExecutionContext(old(State())), reply, env);
        && sent == request
        && closed == ClosesModal(result)
        && refresh == refetched
        && State() == AfterExecution(old(State()), result)
    {
      var outcome := registry.ExecuteCommand(commandId, ExecutionContext(State()), reply, env);
      sent := outcome.0;
      refresh := outcome.2;
      var result := outcome.1;
      closed := false;
      if result.success {
        if result.shouldCloseModal {
          closed := true;
        }
        if result.shouldEnterCommandMode {
          commandMode := true;
          if Truthy(result.newCommandName) {
            activeCommand := result.newCommandName;
          }
        }
      }
    }

    /** `executeCurrentCommand`: nothing without a current command, otherwise `executeCommand` of its id. */
    method ExecuteCurrentCommand(reply: Reply, env: Env) returns (sent: Request, closed: bool, refresh: Refresh)
      requires Valid()
      modifies this
      ensures old(CurrentCommand()).None? ==> sent == NoRequest && !closed && refresh == NoRefresh && State() == old(State())
      ensures old(CurrentCommand()).Some? ==>
        var (request, result, refetched) := registry.ExecuteCommand(old(CurrentCommand()).value.info.id, ExecutionContext(old(State())), reply, env);
        && sent == request
        && closed == ClosesModal(result)
        && refresh == refetched
        && State() == AfterExecution(old(State()), result)
    {
      var command := CurrentCommand();
      if command.None? {
        return NoRequest, false, NoRefresh;
      }
      sent, closed, refresh := ExecuteCommand(command.value.info.id, reply, env);
    }

    method Reset()
      modifies this
      ensures State() == ResetView(old(State()))
    {
      query := "";
      activeItemIndex := 0;
      commandMode := false;
      activeCommand := None;
      selectedTabIds := {};
    }
  }
}
