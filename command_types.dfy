/**
 * The values the command system passes around (src/commands/CommandTypes.ts):
 * tabs and groups as Chrome reports them, result items, execution results,
 * and the requests a command sends to Chrome together with Chrome's reply.
 *
 * An optional Chrome string (a tab's title or url, a group's title) is
 * modelled as a string, with "" standing for "absent".
 */
module CommandTypes {
  import opened Wrappers
  import opened Strings
  import opened Seqs

  datatype Tab = Tab(id: int, title: string, url: string)

  datatype TabGroup = TabGroup(id: int, title: string)

  /** What an action item does when it is run. */
  datatype Effect = NoEffect | OpenUrlEffect(url: string)

  /** `SearchResultItem`: the four kinds of row the palette shows. */
  datatype Item =
    | TabItem(tab: Tab)
    | ActionItem(id: string, title: string, effect: Effect)
    | CloseTabActionItem(tab: Tab, title: string, id: string)
    | TabGroupItem(group: TabGroup, title: string, id: string)

  datatype Mode = SingleExecution | CommandMode

  /** The dialog a command asks for when it needs more input. */
  datatype InputConfig = InputConfig(title: string, placeholder: string, defaultValue: string)

  /**
   * `CommandExecutionResult`, with the `needsInput` / `inputConfig` fields
   * the commands add; an absent boolean flag is false.
   */
  datatype ExecResult = ExecResult(
    success: bool,
    message: Option<string>,
    error: Option<string>,
    shouldCloseModal: bool,
    shouldEnterCommandMode: bool,
    newCommandName: Option<string>,
    needsInput: bool,
    inputConfig: Option<InputConfig>)

  function Failure(error: string): (r: ExecResult)
    ensures !r.success && r.error == Some(error) && !r.shouldCloseModal && !r.shouldEnterCommandMode
  {
    ExecResult(false, None, Some(error), false, false, None, false, None)
  }

  /** A success that closes the palette. */
  function Closing(message: string): (r: ExecResult)
    ensures r.success && r.message == Some(message) && r.shouldCloseModal && !r.shouldEnterCommandMode
  {
    ExecResult(true, Some(message), None, true, false, None, false, None)
  }

  /** `CommandContext`: what `getSearchResults` sees. */
  datatype CommandContext = CommandContext(
    tabs: seq<Tab>,
    tabGroups: seq<TabGroup>,
    selectedTabIds: set<int>,
    query: string,
    commandMode: bool,
    activeCommand: Option<string>)

  /** `CommandExecutionContext`, without its callbacks, plus `selectedGroupId`. */
  datatype ExecContext = ExecContext(
    query: string,
    selectedTabIds: set<int>,
    commandMode: bool,
    tabGroups: seq<TabGroup>,
    selectedGroupId: Option<int>)

  /** The message a command sends to the background script (or Chrome). */
  datatype Request =
    | NoRequest
    | SwitchToPreviousTab
    | CloseDuplicateTabs
    | CloseTabs(tabIds: set<int>)
    | CloseCurrentTab
    | CreateTab
    | CreateTabGroup(groupTabIds: set<int>, groupName: string)
    | DeleteTabGroup(groupId: int)
    | OpenUrl(url: string)

  /** The background script's answer; "" and 0 stand for absent fields. */
  datatype Response = Response(success: bool, message: string, error: string, closedCount: int)

  /**
   * What comes back from a request: `chrome.runtime.lastError` set, an
   * exception thrown by the call, or an answer (possibly `undefined`).
   */
  datatype Reply =
    | LastError(lastError: string)
    | Threw(thrown: Option<string>)
    | Answer(response: Option<Response>)

  /** A command either produces a result or raises an exception. */
  datatype Outcome = Done(result: ExecResult) | Raised(exception: Option<string>)

  /**
   * The palette lists a command fetches again after a successful answer:
   * `context.fetchTabs()` and `context.fetchTabGroups()`.
   */
  datatype Refresh = Refresh(tabs: bool, tabGroups: bool)

  const NoRefresh := Refresh(false, false)
  const TabsRefresh := Refresh(true, false)
  const TabsAndGroupsRefresh := Refresh(true, true)

  /** One run of a command's `execute`: the request it sent, how it ended, and what it fetched again. */
  datatype Execution = Execution(sent: Request, outcome: Outcome, refresh: Refresh)

  /** A run that fails validation, sends nothing and fetches nothing. */
  function Rejected(error: string): (e: Execution)
    ensures e.sent == NoRequest && e.outcome == Done(Failure(error)) && e.refresh == NoRefresh
  {
    Execution(NoRequest, Done(Failure(error)), NoRefresh)
  }

  /**
   * After a request is sent: a Chrome error fails with its message, an
   * exception propagates, and an answer is turned into a result by
   * `answered`; only an answer that `answered` makes a success fetches
   * `refresh` again.
   */
  function Settle(sent: Request, reply: Reply, answered: Option<Response> -> ExecResult, refresh: Refresh): (e: Execution)
    ensures e.sent == sent
    ensures reply.LastError? ==> e.outcome == Done(Failure(reply.lastError))
    ensures reply.Threw? ==> e.outcome == Raised(reply.thrown)
    ensures reply.Answer? ==> e.outcome == Done(answered(reply.response))
    ensures e.refresh == if reply.Answer? && answered(reply.response).success then refresh else NoRefresh
  {
    match reply
    case LastError(m) => Execution(sent, Done(Failure(m)), NoRefresh)
    case Threw(x) => Execution(sent, Raised(x), NoRefresh)
    case Answer(r) =>
      var result := answered(r);
      Execution(sent, Done(result), if result.success then refresh else NoRefresh)
  }

  /** `response && response.success`. */
  predicate Succeeded(response: Option<Response>)
  {
    response.Some? && response.value.success
  }

  /** `response?.error || fallback`. */
  function ErrorOr(response: Option<Response>, fallback: string): string
  {
    if response.Some? && response.value.error != "" then response.value.error else fallback
  }

  /** `response?.message || fallback`. */
  function MessageOr(response: Option<Response>, fallback: string): string
  {
    if response.Some? && response.value.message != "" then response.value.message else fallback
  }

  /** Each tab as a tab item, in order. */
  function TabItems(tabs: seq<Tab>): (r: seq<Item>)
    ensures |r| == |tabs| && forall i :: 0 <= i < |tabs| ==> r[i] == TabItem(tabs[i])
  {
    seq(|tabs|, i requires 0 <= i < |tabs| => TabItem(tabs[i]))
  }

  /** The tab items are exactly the items of the given tabs. */
  lemma TabItemsMembers(tabs: seq<Tab>)
    ensures forall t :: t in tabs ==> TabItem(t) in TabItems(tabs)
    ensures forall item :: item in TabItems(tabs) ==> item.TabItem? && item.tab in tabs
  {
    var r := TabItems(tabs);
    forall t | t in tabs ensures TabItem(t) in r {
      var i :| 0 <= i < |tabs| && tabs[i] == t;
      assert r[i] == TabItem(t);
    }
  }

  /**
   * The functions the commands borrow from the browser: whether `new URL(s)`
   * succeeds, `encodeURIComponent`, and the current `toLocaleTimeString()`.
   */
  datatype Env = Env(parses: string -> bool, encode: string -> string, timeString: string)

  /** `tab.title?.toLowerCase().includes(q) || tab.url?.toLowerCase().includes(q)`. */
  predicate TabMatches(tab: Tab, lowerQuery: string)
  {
    Contains(Lower(tab.title), lowerQuery) || Contains(Lower(tab.url), lowerQuery)
  }

  /** `tabs.filter(tab => TabMatches(tab, q))`: the matching tabs, in order. */
  function MatchingTabs(tabs: seq<Tab>, q: string): (r: seq<Tab>)
    ensures |r| <= |tabs|
    ensures forall t :: t in r <==> t in tabs && TabMatches(t, q)
    ensures IsSubseq(r, tabs)
  {
    if tabs == [] then []
    else if TabMatches(tabs[0], q) then [tabs[0]] + MatchingTabs(tabs[1..], q)
    else MatchingTabs(tabs[1..], q)
  }

  /** `tabs.filter(tab => !selected.has(tab.id))`: the unselected tabs, in order. */
  function UnselectedTabs(tabs: seq<Tab>, selected: set<int>): (r: seq<Tab>)
    ensures |r| <= |tabs|
    ensures forall t :: t in r <==> t in tabs && t.id !in selected
    ensures IsSubseq(r, tabs)
  {
    if tabs == [] then []
    else if tabs[0].id !in selected then [tabs[0]] + UnselectedTabs(tabs[1..], selected)
    else UnselectedTabs(tabs[1..], selected)
  }

  /** "s" unless the count is exactly one. */
  function Plural(count: int): string
  {
    if count != 1 then "s" else ""
  }

  /** The message of both close commands: "Closed N tab" or "Closed N tabs". */
  function ClosedTabsMessage(count: nat): string
  {
    "Closed " + IntToString(count) + " tab" + Plural(count)
  }
}
