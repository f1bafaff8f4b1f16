/** `close_duplicates` (src/commands/CloseDuplicateTabsCommand.ts): closes every tab whose url repeats an earlier one. */
module CloseDuplicateTabsCommand {
  import opened Wrappers
  import opened Strings
  import opened CommandTypes
  import opened BaseCommand

  const Info: CommandInfo := CommandInfo("close_duplicates", "Close Duplicate Tabs", ["close duplicate", "close duplicates", "duplicate"], SingleExecution, false)

  /** Every alias is declared in lower case. */
  lemma AliasesLowerCase()
    ensures forall i :: 0 <= i < |Info.aliases| ==> IsLower(Info.aliases[i])
  {
  }

  /** The id has no '-', so the suggestion suffix is the only one in a suggestion id. */
  lemma IdHasNoDash()
    ensures '-' !in Info.id
  {
  }

  /** The inherited `getDisplayTitle`. */
  function DisplayTitle(query: string): string
  {
    DefaultDisplayTitle(Info, query)
  }

  /** `getSearchResults`: this command lists nothing. */
  function SearchResults(context: CommandContext): (r: seq<Item>)
    ensures r == []
  {
    []
  }

  /** "Closed N duplicate tabs", with N the reported count (absent counts as 0). */
  function ClosedMessage(count: int): string
  {
    "Closed " + IntToString(count) + " duplicate tabs"
  }

  /**
   * `execute`: asks the background script to close duplicates; succeeds
   * exactly when it answers with success, reporting its count, and
   * otherwise fails with a fixed message.
   */
  function ExecuteSpec(context: ExecContext, reply: Reply): (e: Execution)
    ensures e.sent == CloseDuplicateTabs
    ensures e.outcome.Done? && e.outcome.result.success <==> reply.Answer? && Succeeded(reply.response)
    ensures reply.Answer? && Succeeded(reply.response) ==>
      e.outcome == Done(Closing(ClosedMessage(reply.response.value.closedCount)))
    ensures reply.Answer? && !Succeeded(reply.response) ==> e.outcome == Done(Failure("Failed to close duplicate tabs"))
    ensures reply.LastError? ==> e.outcome == Done(Failure(reply.lastError))
    ensures reply.Threw? ==> e.outcome == Raised(reply.thrown)
    ensures e.refresh == if reply.Answer? && Succeeded(reply.response) then TabsRefresh else NoRefresh
  {
    Settle(CloseDuplicateTabs, reply,
      response => if Succeeded(response) then Closing(ClosedMessage(response.value.closedCount))
                  else Failure("Failed to close duplicate tabs"),
      TabsRefresh)
  }
}
