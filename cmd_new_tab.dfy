/** `new_tab` (src/commands/NewTabCommand.ts): opens a new tab through `chrome.tabs.create`. */
module NewTabCommand {
  import opened Wrappers
  import opened Strings
  import opened CommandTypes
  import opened BaseCommand

  const Info: CommandInfo := CommandInfo("new_tab", "New Tab", ["new tab", "new", "nt", "tab"], SingleExecution, false)

  /** Every alias is declared in lower case. */
  lemma AliasesLowerCase()
    ensures forall i :: 0 <= i < |Info.aliases| ==> IsLower(Info.aliases[i])
  {
  }

  /** The id has no '-', so the suggestion suffix is the only one in a suggestion id. */
  lemma IdHasNoDash()
    ensures '-' !in Info.id
  {
  }

  /** `getDisplayTitle`: always the command's name. */
  function DisplayTitle(query: string): (t: string)
    ensures t == Info.name
  {
    "New Tab"
  }

  /** `getSearchResults`: the same single action whatever the query. */
  function SearchResults(context: CommandContext): (r: seq<Item>)
    ensures r == [ActionItem("execute-new-tab", "New Tab", NoEffect)]
  {
    [ActionItem("execute-new-tab", "New Tab", NoEffect)]
  }

  /**
   * `execute`: creates a tab; any answer is a success, whatever it
   * carries, and only a Chrome error or an exception is not.
   */
  function ExecuteSpec(context: ExecContext, reply: Reply): (e: Execution)
    ensures e.sent == CreateTab
    ensures e.outcome.Done? && e.outcome.result.success <==> reply.Answer?
    ensures reply.Answer? ==> e.outcome == Done(Closing("Created new tab"))
    ensures reply.LastError? ==> e.outcome == Done(Failure(reply.lastError))
    ensures reply.Threw? ==> e.outcome == Raised(reply.thrown)
    ensures e.refresh == if reply.Answer? then TabsRefresh else NoRefresh
  {
    Settle(CreateTab, reply, _ => Closing("Created new tab"), TabsRefresh)
  }
}
