/**
 * `group_tabs` (src/commands/CreateTabGroupCommand.ts): a command-mode
 * command that offers the unselected tabs and groups the selected ones.
 */
module CreateTabGroupCommand {
  import opened Wrappers
  import opened Strings
  import opened CommandTypes
  import opened BaseCommand

  const Info: CommandInfo := CommandInfo("group_tabs", "Group Tabs", ["group tabs", "group", "create group"], CommandMode, true)

  /** Every alias is declared in lower case. */
  lemma AliasesLowerCase()
    ensures forall i :: 0 <= i < |Info.aliases| ==> IsLower(Info.aliases[i])
  {
  }

  /** The id has no '-', so the suggestion suffix is the only one in a suggestion id. */
  lemma IdHasNoDash()
    ensures '-' !in Info.id
  {
  }

  function DisplayTitle(query: string): string
  {
    var argument := ExtractArgument(Info, query);
    if !IsBlank(argument) then "Group Tabs: \"" + argument + "\"" else "Group Tabs"
  }

  /**
   * `getSearchResults`: the tabs not yet selected, in order, further
   * restricted to those matching a non-blank argument.
   */
  function SearchResults(context: CommandContext): (r: seq<Item>)
    ensures forall item :: item in r ==> item.TabItem? && item.tab in context.tabs && item.tab.id !in context.selectedTabIds
    ensures IsBlank(ExtractArgument(Info, context.query)) ==>
      && (forall t :: t in context.tabs && t.id !in context.selectedTabIds ==> TabItem(t) in r)
      && r == TabItems(UnselectedTabs(context.tabs, context.selectedTabIds))
    ensures !IsBlank(ExtractArgument(Info, context.query)) ==>
      var q := Lower(ExtractArgument(Info, context.query));
      && (forall item :: item in r ==> TabMatches(item.tab, q))
      && (forall t :: t in context.tabs && t.id !in context.selectedTabIds && TabMatches(t, q) ==> TabItem(t) in r)
      && r == TabItems(MatchingTabs(UnselectedTabs(context.tabs, context.selectedTabIds), q))
  {
    var argument := ExtractArgument(Info, context.query);
    var unselected := UnselectedTabs(context.tabs, context.selectedTabIds);
    var kept := if IsBlank(argument) then unselected else MatchingTabs(unselected, Lower(argument));
    TabItemsMembers(kept);
    TabItems(kept)
  }

  /** The dialog asking for a group name, pre-filled with "Group <time>". */
  function NameDialog(timeString: string): InputConfig
  {
    InputConfig("Create Tab Group", "Enter group name...", "Group " + timeString)
  }

  /** The result that asks for a group name instead of creating the group. */
  function NeedsName(timeString: string): ExecResult
  {
    ExecResult(true, None, None, false, false, None, true, Some(NameDialog(timeString)))
  }

  /**
   * The answer to CREATE_TAB_GROUP: a successful one closes the palette with
   * its own message or "Created group "<name>" with N tabs"; any other fails
   * with its own error or "Failed to create tab group".
   */
  function GroupAnswer(response: Option<Response>, name: string, count: nat): (r: ExecResult)
    ensures r.success <==> Succeeded(response)
    ensures Succeeded(response) && response.value.message != "" ==> r == Closing(response.value.message)
    ensures Succeeded(response) && response.value.message == "" ==>
      r == Closing("Created group \"" + name + "\" with " + IntToString(count) + " tabs")
    ensures !Succeeded(response) && response.Some? && response.value.error != "" ==> r == Failure(response.value.error)
    ensures !Succeeded(response) && (response.None? || response.value.error == "") ==> r == Failure("Failed to create tab group")
  {
    if Succeeded(response) then
      Closing(MessageOr(response, "Created group \"" + name + "\" with " + IntToString(count) + " tabs"))
    else Failure(ErrorOr(response, "Failed to create tab group"))
  }

  /**
   * `execute`: fewer than two selected tabs are rejected (zero and one with
   * their own messages) before the name is looked at; a blank name asks for
   * input without creating anything; otherwise the selection is grouped
   * under the trimmed name.
   */
  function ExecuteSpec(context: ExecContext, reply: Reply, timeString: string): (e: Execution)
    ensures |context.selectedTabIds| == 0 ==> e == Rejected("No tabs selected for grouping")
    ensures |context.selectedTabIds| == 1 ==> e == Rejected("At least 2 tabs required to create a group")
    ensures |context.selectedTabIds| >= 2 && IsBlank(ExtractArgument(Info, context.query)) ==>
      e == Execution(NoRequest, Done(NeedsName(timeString)), NoRefresh)
    ensures e.sent != NoRequest <==> |context.selectedTabIds| >= 2 && !IsBlank(ExtractArgument(Info, context.query))
    ensures e.sent != NoRequest ==> e.sent == CreateTabGroup(context.selectedTabIds, Trim(ExtractArgument(Info, context.query)))
    ensures e.sent != NoRequest && e.outcome.Done? ==>
      (e.outcome.result.success <==> reply.Answer? && Succeeded(reply.response))
    ensures e.sent != NoRequest && reply.Answer? ==>
      e.outcome == Done(GroupAnswer(reply.response, Trim(ExtractArgument(Info, context.query)), |context.selectedTabIds|))
    ensures e.sent != NoRequest && reply.LastError? ==> e.outcome == Done(Failure(reply.lastError))
    ensures e.sent != NoRequest && reply.Threw? ==> e.outcome == Raised(reply.thrown)
    ensures e.outcome.Done? && e.outcome.result.success && !e.outcome.result.needsInput ==> e.outcome.result.shouldCloseModal
    ensures e.refresh == if e.sent != NoRequest && reply.Answer? && Succeeded(reply.response) then TabsAndGroupsRefresh else NoRefresh
  {
    if |context.selectedTabIds| == 0 then Rejected("No tabs selected for grouping")
    else if |context.selectedTabIds| < 2 then Rejected("At least 2 tabs required to create a group")
    else
      var groupName := Trim(ExtractArgument(Info, context.query));
      if groupName == [] then Execution(NoRequest, Done(NeedsName(timeString)), NoRefresh)
      else
        var count := |context.selectedTabIds|;
        Settle(CreateTabGroup(context.selectedTabIds, groupName), reply, r => GroupAnswer(r, groupName, count), TabsAndGroupsRefresh)
  }
}
