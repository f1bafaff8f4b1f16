/**
 * `delete_group` (src/commands/DeleteTabGroupCommand.ts): a command-mode
 * command that lists tab groups and ungroups the chosen one.
 */
module DeleteTabGroupCommand {
  import opened Wrappers
  import opened Strings
  import opened Seqs
  import opened CommandTypes
  import opened BaseCommand

  const Info: CommandInfo := CommandInfo("delete_group", "Delete Tab Group", ["delete tab group", "delete group", "ungroup", "remove group"], CommandMode, false)

  /** Every alias is declared in lower case. */
  lemma AliasesLowerCase()
    ensures forall i :: 0 <= i < |Info.aliases| ==> IsLower(Info.aliases[i])
  {
  }

  /** The id has no '-', so the suggestion suffix is the only one in a suggestion id. */
  lemma IdHasNoDash()
    ensures '-' !in Info.id
  {
  }

  function DisplayTitle(query: string): string
  {
    var argument := ExtractArgument(Info, query);
    if !IsBlank(argument) then "Delete Group: " + argument else "Delete Tab Group"
  }

  /** A group is found by a query its title contains, or its decimal id contains. */
  predicate GroupMatches(group: TabGroup, lowerQuery: string)
  {
    (group.title != "" && Contains(Lower(group.title), lowerQuery)) || Contains(IntToString(group.id), lowerQuery)
  }

  /** The row for one group: its title, or "Group <id>", and id "group-<id>". */
  function GroupRow(group: TabGroup): Item
  {
    TabGroupItem(group, if group.title != "" then group.title else "Group " + IntToString(group.id), "group-" + IntToString(group.id))
  }

  function GroupRows(groups: seq<TabGroup>): (r: seq<Item>)
    ensures |r| == |groups| && forall i :: 0 <= i < |groups| ==> r[i] == GroupRow(groups[i])
  {
    seq(|groups|, i requires 0 <= i < |groups| => GroupRow(groups[i]))
  }

  /** The group rows are exactly the rows of the given groups. */
  lemma GroupRowsMembers(groups: seq<TabGroup>)
    ensures forall g :: g in groups ==> GroupRow(g) in GroupRows(groups)
    ensures forall item :: item in GroupRows(groups) ==> item.TabGroupItem? && item.group in groups
  {
    var r := GroupRows(groups);
    forall g | g in groups ensures GroupRow(g) in r {
      var i :| 0 <= i < |groups| && groups[i] == g;
      assert r[i] == GroupRow(g);
    }
  }

  /** The groups matching the query, in order. */
  function MatchingGroups(groups: seq<TabGroup>, lowerQuery: string): (r: seq<TabGroup>)
    ensures forall g :: g in r <==> g in groups && GroupMatches(g, lowerQuery)
    ensures IsSubseq(r, groups)
  {
    if groups == [] then []
    else if GroupMatches(groups[0], lowerQuery) then [groups[0]] + MatchingGroups(groups[1..], lowerQuery)
    else MatchingGroups(groups[1..], lowerQuery)
  }

  /** `getSearchResults`: every group for a blank argument, otherwise the matching ones, in order. */
  function SearchResults(context: CommandContext): (r: seq<Item>)
    ensures IsBlank(ExtractArgument(Info, context.query)) ==> r == GroupRows(context.tabGroups)
    ensures !IsBlank(ExtractArgument(Info, context.query)) ==>
      var q := Lower(ExtractArgument(Info, context.query));
      && (forall item :: item in r ==> item.TabGroupItem? && item.group in context.tabGroups && GroupMatches(item.group, q))
      && (forall g :: g in context.tabGroups && GroupMatches(g, q) ==> GroupRow(g) in r)
      && r == GroupRows(MatchingGroups(context.tabGroups, q))
  {
    var argument := ExtractArgument(Info, context.query);
    if IsBlank(argument) then GroupRows(context.tabGroups)
    else
      var matching := MatchingGroups(context.tabGroups, Lower(argument));
      GroupRowsMembers(matching);
      GroupRows(matching)
  }

  /** The first group, in list order, with the given id. */
  function GroupWithId(groups: seq<TabGroup>, id: int): (r: Option<TabGroup>)
    ensures r.Some? ==> r.value in groups && r.value.id == id
    ensures r.None? ==> forall g :: g in groups ==> g.id != id
  {
    if groups == [] then None
    else if groups[0].id == id then Some(groups[0])
    else GroupWithId(groups[1..], id)
  }

  /** The first group, in list order, matching the query. */
  function FirstMatchingGroup(groups: seq<TabGroup>, lowerQuery: string): (r: Option<TabGroup>)
    ensures r.Some? ==> r.value in groups && GroupMatches(r.value, lowerQuery)
    ensures r.Some? ==> exists i :: 0 <= i < |groups| && groups[i] == r.value
                                   && (forall j :: 0 <= j < i ==> !GroupMatches(groups[j], lowerQuery))
    ensures r.None? ==> forall g :: g in groups ==> !GroupMatches(g, lowerQuery)
  {
    if groups == [] then None
    else if GroupMatches(groups[0], lowerQuery) then Some(groups[0])
    else
      var rest := FirstMatchingGroup(groups[1..], lowerQuery);
      if rest.Some? then
        FirstMatchAfterHead(groups, lowerQuery, rest.value);
        rest
      else rest
  }

  /** A first match in the tail is a first match in the list when the head does not match. */
  lemma FirstMatchAfterHead(groups: seq<TabGroup>, lowerQuery: string, g: TabGroup)
    requires groups != [] && !GroupMatches(groups[0], lowerQuery)
    requires exists i :: 0 <= i < |groups[1..]| && groups[1..][i] == g
                         && (forall j :: 0 <= j < i ==> !GroupMatches(groups[1..][j], lowerQuery))
    ensures exists i :: 0 <= i < |groups| && groups[i] == g
                        && (forall j :: 0 <= j < i ==> !GroupMatches(groups[j], lowerQuery))
  {
    var i :| 0 <= i < |groups[1..]| && groups[1..][i] == g
             && (forall j :: 0 <= j < i ==> !GroupMatches(groups[1..][j], lowerQuery));
    assert groups[i + 1] == g;
    forall j | 0 <= j < i + 1 ensures !GroupMatches(groups[j], lowerQuery) {
      if j > 0 { assert groups[j] == groups[1..][j - 1]; }
    }
  }

  /**
   * The group `execute` acts on: the one with `selectedGroupId` if that id
   * is present in the list, otherwise the first group matching a non-blank
   * argument.
   */
  function Target(context: ExecContext): (r: Option<TabGroup>)
    ensures context.selectedGroupId.Some? && GroupWithId(context.tabGroups, context.selectedGroupId.value).Some? ==>
      r == GroupWithId(context.tabGroups, context.selectedGroupId.value)
    ensures context.selectedGroupId.None? || GroupWithId(context.tabGroups, context.selectedGroupId.value).None? ==>
      r == if IsBlank(ExtractArgument(Info, context.query)) then None
        else FirstMatchingGroup(context.tabGroups, Lower(ExtractArgument(Info, context.query)))
    ensures r.Some? ==> r.value in context.tabGroups
  {
    var byId := if context.selectedGroupId.Some? then GroupWithId(context.tabGroups, context.selectedGroupId.value) else None;
    if byId.Some? then byId
    else
      var argument := ExtractArgument(Info, context.query);
      if !IsBlank(argument) then FirstMatchingGroup(context.tabGroups, Lower(argument)) else None
  }

  /**
   * The answer to DELETE_TAB_GROUP: a successful one closes the palette with
   * its own message or "Deleted group "<title or id>""; any other fails with
   * its own error or "Failed to delete tab group".
   */
  function DeleteAnswer(response: Option<Response>, group: TabGroup): (r: ExecResult)
    ensures r.success <==> Succeeded(response)
    ensures Succeeded(response) && response.value.message != "" ==> r == Closing(response.value.message)
    ensures Succeeded(response) && response.value.message == "" ==>
      r == Closing("Deleted group \"" + (if group.title != "" then group.title else IntToString(group.id)) + "\"")
    ensures !Succeeded(response) && response.Some? && response.value.error != "" ==> r == Failure(response.value.error)
    ensures !Succeeded(response) && (response.None? || response.value.error == "") ==> r == Failure("Failed to delete tab group")
  {
    if Succeeded(response) then
      Closing(MessageOr(response, "Deleted group \"" + (if group.title != "" then group.title else IntToString(group.id)) + "\""))
    else Failure(ErrorOr(response, "Failed to delete tab group"))
  }

  /** `execute`: with no target group it fails and sends nothing; otherwise it ungroups the target. */
  function ExecuteSpec(context: ExecContext, reply: Reply): (e: Execution)
    ensures Target(context).None? <==> e == Rejected("No tab group selected for deletion")
    ensures e.sent != NoRequest ==> Target(context).Some? && e.sent == DeleteTabGroup(Target(context).value.id)
    ensures e.sent != NoRequest && e.outcome.Done? ==>
      (e.outcome.result.success <==> reply.Answer? && Succeeded(reply.response))
    ensures e.sent != NoRequest && reply.Answer? ==> e.outcome == Done(DeleteAnswer(reply.response, Target(context).value))
    ensures e.sent != NoRequest && reply.LastError? ==> e.outcome == Done(Failure(reply.lastError))
    ensures e.sent != NoRequest && reply.Threw? ==> e.outcome == Raised(reply.thrown)
    ensures e.refresh == if e.sent != NoRequest && reply.Answer? && Succeeded(reply.response) then TabsAndGroupsRefresh else NoRefresh
  {
    match Target(context)
    case None => Rejected("No tab group selected for deletion")
    case Some(group) => Settle(DeleteTabGroup(group.id), reply, r => DeleteAnswer(r, group), TabsAndGroupsRefresh)
  }
}
