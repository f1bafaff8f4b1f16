/**
 * The command objects behind the registry: one `Kind` per command class,
 * and dispatch from a kind to that class's members. A command's
 * `getSuggestions` is the inherited one, fed with the class's own
 * `getDisplayTitle`.
 */
module Commands {
  import opened Wrappers
  import opened Strings
  import opened CommandTypes
  import opened BaseCommand
  import PreviousTabCommand
  import CloseDuplicateTabsCommand
  import CloseTabCommand
  import CloseMultipleTabsCommand
  import NewTabCommand
  import CreateTabGroupCommand
  import DeleteTabGroupCommand
  import SearchCommand
  import OpenUrlCommand
  import CloseCurrentTabCommand

  datatype Kind =
    | PreviousTab | CloseDuplicates | CloseSingle | CloseMultiple | NewTab
    | GroupTabs | DeleteGroup | Search | Url | CloseCurrent

  function Info(k: Kind): (info: CommandInfo)
    ensures info.aliases != []
  {
    match k
    case PreviousTab => PreviousTabCommand.Info
    case CloseDuplicates => CloseDuplicateTabsCommand.Info
    case CloseSingle => CloseTabCommand.Info
    case CloseMultiple => CloseMultipleTabsCommand.Info
    case NewTab => NewTabCommand.Info
    case GroupTabs => CreateTabGroupCommand.Info
    case DeleteGroup => DeleteTabGroupCommand.Info
    case Search => SearchCommand.Info
    case Url => OpenUrlCommand.Info
    case CloseCurrent => CloseCurrentTabCommand.Info
  }

  function DisplayTitle(k: Kind, query: string, env: Env): string
  {
    match k
    case PreviousTab => PreviousTabCommand.DisplayTitle(query)
    case CloseDuplicates => CloseDuplicateTabsCommand.DisplayTitle(query)
    case CloseSingle => CloseTabCommand.DisplayTitle(query)
    case CloseMultiple => CloseMultipleTabsCommand.DisplayTitle(query)
    case NewTab => NewTabCommand.DisplayTitle(query)
    case GroupTabs => CreateTabGroupCommand.DisplayTitle(query)
    case DeleteGroup => DeleteTabGroupCommand.DisplayTitle(query)
    case Search => SearchCommand.DisplayTitle(query)
    case Url => OpenUrlCommand.DisplayTitle(query, env)
    case CloseCurrent => CloseCurrentTabCommand.DisplayTitle(query)
  }

  function SearchResults(k: Kind, context: CommandContext, env: Env): seq<Item>
  {
    match k
    case PreviousTab => PreviousTabCommand.SearchResults(context)
    case CloseDuplicates => CloseDuplicateTabsCommand.SearchResults(context)
    case CloseSingle => CloseTabCommand.SearchResults(context)
    case CloseMultiple => CloseMultipleTabsCommand.SearchResults(context)
    case NewTab => NewTabCommand.SearchResults(context)
    case GroupTabs => CreateTabGroupCommand.SearchResults(context)
    case DeleteGroup => DeleteTabGroupCommand.SearchResults(context)
    case Search => SearchCommand.SearchResults(context)
    case Url => OpenUrlCommand.SearchResults(context, env)
    case CloseCurrent => CloseCurrentTabCommand.SearchResults(context)
  }

  function ExecuteSpec(k: Kind, context: ExecContext, reply: Reply, env: Env): Execution
  {
    match k
    case PreviousTab => PreviousTabCommand.ExecuteSpec(context, reply)
    case CloseDuplicates => CloseDuplicateTabsCommand.ExecuteSpec(context, reply)
    case CloseSingle => CloseTabCommand.ExecuteSpec(context, reply)
    case CloseMultiple => CloseMultipleTabsCommand.ExecuteSpec(context, reply)
    case NewTab => NewTabCommand.ExecuteSpec(context, reply)
    case GroupTabs => CreateTabGroupCommand.ExecuteSpec(context, reply, env.timeString)
    case DeleteGroup => DeleteTabGroupCommand.ExecuteSpec(context, reply)
    case Search => SearchCommand.ExecuteSpec(context, reply, env)
    case Url => OpenUrlCommand.ExecuteSpec(context, reply, env)
    case CloseCurrent => CloseCurrentTabCommand.ExecuteSpec(context, reply)
  }

  /**
   * A command fetches lists again only after it has sent its request and
   * succeeded; it then always fetches the tabs, the tab groups only for the
   * two group commands, and `previous_tab` never fetches anything.
   */
  lemma RefreshOnlyAfterSuccess(k: Kind, context: ExecContext, reply: Reply, env: Env)
    ensures var e := ExecuteSpec(k, context, reply, env);
      && (e.refresh != NoRefresh ==> e.sent != NoRequest && e.outcome.Done? && e.outcome.result.success && e.refresh.tabs)
      && (e.refresh.tabGroups ==> k == GroupTabs || k == DeleteGroup)
      && (k == PreviousTab ==> e.refresh == NoRefresh)
  {
  }

  /**
   * A command object: which class it is, and the constant fields (id, name,
   * aliases, mode) the registry reads from it.
   */
  datatype Command = Command(kind: Kind, info: CommandInfo)

  /** `new <Class>()`. */
  function Make(k: Kind): (c: Command)
    ensures c.kind == k && c.info == Info(k) && c.info.aliases != []
  {
    Command(k, Info(k))
  }

  /** `command.getSuggestions(query)`. */
  function Suggestions(c: Command, query: string, env: Env): (r: seq<Item>)
    ensures |r| <= 1
    ensures r == [] <==> !Matches(c.info, query)
    ensures r != [] ==> r[0] == ActionItem(SuggestionId(c.info), DisplayTitle(c.kind, query, env), NoEffect)
  {
    BaseCommand.Suggestions(c.info, query, DisplayTitle(c.kind, query, env))
  }

  /** Every command offers its one suggestion for a blank query. */
  lemma SuggestsOnBlank(k: Kind, query: string, env: Env)
    requires IsBlank(query)
    ensures |Suggestions(Make(k), query, env)| == 1
  {
    MatchesBlank(Info(k), query);
  }
}
