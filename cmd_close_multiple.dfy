/**
 * `close_multiple` (src/commands/CloseMultipleTabsCommand.ts): a command-mode
 * command that lists tabs for multi-selection and closes the selection.
 */
module CloseMultipleTabsCommand {
  import opened Wrappers
  import opened Strings
  import opened CommandTypes
  import opened BaseCommand

  const Info: CommandInfo := CommandInfo("close_multiple", "Close Tabs", ["close tabs", "close multiple", "multi close"], CommandMode, true)

  /** Every alias is declared in lower case. */
  lemma AliasesLowerCase()
    ensures forall i :: 0 <= i < |Info.aliases| ==> IsLower(Info.aliases[i])
  {
  }

  /** The id has no '-', so the suggestion suffix is the only one in a suggestion id. */
  lemma IdHasNoDash()
    ensures '-' !in Info.id
  {
  }

  function DisplayTitle(query: string): string
  {
    var argument := ExtractArgument(Info, query);
    if !IsBlank(argument) then "Close Tabs: " + argument else "Close Tabs (Multiple)"
  }

  /**
   * `getSearchResults`: every tab for a blank argument, otherwise the tabs
   * matching the lower-cased argument; always tab items in tab order.
   */
  function SearchResults(context: CommandContext): (r: seq<Item>)
    ensures IsBlank(ExtractArgument(Info, context.query)) ==> r == TabItems(context.tabs)
    ensures !IsBlank(ExtractArgument(Info, context.query)) ==>
      var q := Lower(ExtractArgument(Info, context.query));
      && (forall item :: item in r ==> item.TabItem? && item.tab in context.tabs && TabMatches(item.tab, q))
      && (forall t :: t in context.tabs && TabMatches(t, q) ==> TabItem(t) in r)
      && r == TabItems(MatchingTabs(context.tabs, q))
  {
    var argument := ExtractArgument(Info, context.query);
    if IsBlank(argument) then TabItems(context.tabs)
    else
      var matching := MatchingTabs(context.tabs, Lower(argument));
      TabItemsMembers(matching);
      TabItems(matching)
  }

  /**
   * `execute`: an empty selection is rejected; otherwise the selection is
   * closed, and any answer, whatever it says, is a success that counts the
   * selection and fetches the tabs again.
   */
  function ExecuteSpec(context: ExecContext, reply: Reply): (e: Execution)
    ensures context.selectedTabIds == {} <==> e == Rejected("No tabs selected for closing")
    ensures e.sent != NoRequest <==> context.selectedTabIds != {}
    ensures e.sent != NoRequest ==> e.sent == CloseTabs(context.selectedTabIds)
    ensures e.sent != NoRequest && reply.Answer? ==> e.outcome == Done(Closing(ClosedTabsMessage(|context.selectedTabIds|)))
    ensures e.sent != NoRequest && reply.LastError? ==> e.outcome == Done(Failure(reply.lastError))
    ensures e.sent != NoRequest && reply.Threw? ==> e.outcome == Raised(reply.thrown)
    ensures e.outcome.Done? && e.outcome.result.success ==> reply.Answer? && e.sent != NoRequest
    ensures e.refresh == if e.sent != NoRequest && reply.Answer? then TabsRefresh else NoRefresh
  {
    if |context.selectedTabIds| == 0 then Rejected("No tabs selected for closing")
    else
      var count := |context.selectedTabIds|;
      Settle(CloseTabs(context.selectedTabIds), reply, _ => Closing(ClosedTabsMessage(count)), TabsRefresh)
  }
}
