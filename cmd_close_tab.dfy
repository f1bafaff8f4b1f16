/**
 * `close_single` (src/commands/CloseTabCommand.ts): lists the tabs whose
 * title or url contains the argument, and closes the selected tabs.
 */
module CloseTabCommand {
  import opened Wrappers
  import opened Strings
  import opened Seqs
  import opened CommandTypes
  import opened BaseCommand

  const Info: CommandInfo := CommandInfo("close_single", "Close Tab", ["close tab", "close", "x"], SingleExecution, false)

  /** Every alias is declared in lower case. */
  lemma AliasesLowerCase()
    ensures forall i :: 0 <= i < |Info.aliases| ==> IsLower(Info.aliases[i])
  {
  }

  /** The id has no '-', so the suggestion suffix is the only one in a suggestion id. */
  lemma IdHasNoDash()
    ensures '-' !in Info.id
  {
  }

  /** The row shown while no tab has been named yet. */
  const Prompt: Item := ActionItem(SuggestionId(Info), "Close {query_name}", NoEffect)

  function DisplayTitle(query: string): string
  {
    var argument := ExtractArgument(Info, query);
    if !IsBlank(argument) then "Close: " + argument else "Close {query_name}"
  }

  /** The close row for one tab: its title, or "Untitled Tab", and id "close-tab-<id>". */
  function CloseAction(tab: Tab): Item
  {
    CloseTabActionItem(tab, if tab.title != "" then tab.title else "Untitled Tab", "close-tab-" + IntToString(tab.id))
  }

  function CloseActions(tabs: seq<Tab>): (r: seq<Item>)
    ensures |r| == |tabs| && forall i :: 0 <= i < |tabs| ==> r[i] == CloseAction(tabs[i])
  {
    seq(|tabs|, i requires 0 <= i < |tabs| => CloseAction(tabs[i]))
  }

  /** The close rows are exactly the rows of the given tabs. */
  lemma CloseActionsMembers(tabs: seq<Tab>)
    ensures forall t :: t in tabs ==> CloseAction(t) in CloseActions(tabs)
    ensures forall item :: item in CloseActions(tabs) ==> item.CloseTabActionItem? && item.tab in tabs
  {
    var r := CloseActions(tabs);
    forall t | t in tabs ensures CloseAction(t) in r {
      var i :| 0 <= i < |tabs| && tabs[i] == t;
      assert r[i] == CloseAction(t);
    }
  }

  /**
   * `getSearchResults`: the prompt for a blank argument; otherwise one close
   * row for each tab matching the lower-cased argument, in tab order.
   */
  function SearchResults(context: CommandContext): (r: seq<Item>)
    ensures IsBlank(ExtractArgument(Info, context.query)) ==> r == [Prompt]
    ensures !IsBlank(ExtractArgument(Info, context.query)) ==>
      var q := Lower(ExtractArgument(Info, context.query));
      && (forall item :: item in r ==> item.CloseTabActionItem? && item.tab in context.tabs && TabMatches(item.tab, q))
      && (forall t :: t in context.tabs && TabMatches(t, q) ==> CloseAction(t) in r)
      && r == CloseActions(MatchingTabs(context.tabs, q))
  {
    var argument := ExtractArgument(Info, context.query);
    if IsBlank(argument) then [Prompt]
    else
      var q := Lower(argument);
      var matching := MatchingTabs(context.tabs, q);
      CloseActionsMembers(matching);
      CloseActions(matching)
  }

  /**
   * `execute`: an empty query, a blank argument or an empty selection is
   * rejected in that order without sending anything; otherwise the selected
   * tabs are closed, and any answer, whatever it says, is a success that
   * counts the selection and fetches the tabs again.
   */
  function ExecuteSpec(context: ExecContext, reply: Reply): (e: Execution)
    ensures context.query == [] ==> e == Rejected("Context.query is null/undefined")
    ensures context.query != [] && IsBlank(ExtractArgument(Info, context.query)) ==> e == Rejected("No tab specified for closing")
    ensures context.query != [] && !IsBlank(ExtractArgument(Info, context.query)) && context.selectedTabIds == {} ==>
      e == Rejected("No tabs selected for closing")
    ensures e.sent != NoRequest <==>
      context.query != [] && !IsBlank(ExtractArgument(Info, context.query)) && context.selectedTabIds != {}
    ensures e.sent != NoRequest ==> e.sent == CloseTabs(context.selectedTabIds)
    ensures e.sent != NoRequest && reply.Answer? ==> e.outcome == Done(Closing(ClosedTabsMessage(|context.selectedTabIds|)))
    ensures e.sent != NoRequest && reply.LastError? ==> e.outcome == Done(Failure(reply.lastError))
    ensures e.sent != NoRequest && reply.Threw? ==> e.outcome == Raised(reply.thrown)
    ensures e.outcome.Done? && e.outcome.result.success ==> reply.Answer? && e.sent != NoRequest
    ensures e.refresh == if e.sent != NoRequest && reply.Answer? then TabsRefresh else NoRefresh
  {
    if context.query == [] then Rejected("Context.query is null/undefined")
    else
      var argument := ExtractArgument(Info, context.query);
      if IsBlank(argument) then Rejected("No tab specified for closing")
      else if |context.selectedTabIds| == 0 then Rejected("No tabs selected for closing")
      else Settle(CloseTabs(context.selectedTabIds), reply, _ => Closing(ClosedTabsMessage(|context.selectedTabIds|)), TabsRefresh)
  }

  /**
   * The argument loop of `execute`, over the normalised query: the first
   * alias it starts with decides the argument; with none, the query stays.
   */
  method ScanArgument(aliases: seq<string>, lowerQuery: string, query: string) returns (argument: string)
    ensures argument == match FirstPrefixAlias(aliases, lowerQuery)
      case None => query
      case Some(k) => Trim(Drop(query, |aliases[k]|))
  {
    argument := query;
    var i := 0;
    while i < |aliases|
      invariant 0 <= i <= |aliases|
      invariant forall j :: 0 <= j < i ==> !StartsWith(lowerQuery, Lower(aliases[j]))
    {
      if StartsWith(lowerQuery, Lower(aliases[i])) {
        argument := Trim(Drop(query, |aliases[i]|));
        assert FirstPrefixAlias(aliases, lowerQuery) == Some(i);
        return;
      }
      i := i + 1;
    }
  }

  /** `execute` as written, with its own argument loop. */
  method Execute(context: ExecContext, reply: Reply) returns (e: Execution)
    ensures e == ExecuteSpec(context, reply)
  {
    if context.query == [] {
      return Rejected("Context.query is null/undefined");
    }
    var argument := ScanArgument(Info.aliases, NormaliseQuery(context.query), context.query);
    if IsBlank(argument) {
      return Rejected("No tab specified for closing");
    }
    if |context.selectedTabIds| == 0 {
      return Rejected("No tabs selected for closing");
    }
    var count := |context.selectedTabIds|;
    match reply {
      case LastError(m) =>
        e := Execution(CloseTabs(context.selectedTabIds), Done(Failure(m)), NoRefresh);
      case Threw(x) =>
        e := Execution(CloseTabs(context.selectedTabIds), Raised(x), NoRefresh);
      case Answer(_) =>
        e := Execution(CloseTabs(context.selectedTabIds), Done(Closing(ClosedTabsMessage(count))), TabsRefresh);
    }
  }
}
