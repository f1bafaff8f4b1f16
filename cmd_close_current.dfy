/**
 * `close_current` (src/commands/CloseCurrentTabCommand.ts): closes the
 * active tab. The command is defined but never registered.
 */
module CloseCurrentTabCommand {
  import opened Wrappers
  import opened Strings
  import opened CommandTypes
  import opened BaseCommand

  const Info: CommandInfo := CommandInfo("close_current", "Close Current Tab", ["close current", "close current tab", "current"], SingleExecution, false)

  /** Every alias is declared in lower case. */
  lemma AliasesLowerCase()
    ensures forall i :: 0 <= i < |Info.aliases| ==> IsLower(Info.aliases[i])
  {
  }

  /** The id has no '-', so the suggestion suffix is the only one in a suggestion id. */
  lemma IdHasNoDash()
    ensures '-' !in Info.id
  {
  }

  /** `getDisplayTitle`: a constant. */
  function DisplayTitle(query: string): (t: string)
    ensures t == "Close current tab"
  {
    "Close current tab"
  }

  /** `getSearchResults`: the same single suggestion whatever the query. */
  function SearchResults(context: CommandContext): (r: seq<Item>)
    ensures r == [ActionItem(SuggestionId(Info), "Close current tab", NoEffect)]
    ensures r[0].id == "close_current-suggestion"
  {
    [ActionItem(SuggestionId(Info), "Close current tab", NoEffect)]
  }

  /**
   * `execute`: asks the background script to close the active tab;
   * succeeds exactly when it answers with success, and otherwise reports
   * its error or "Failed to close current tab".
   */
  function ExecuteSpec(context: ExecContext, reply: Reply): (e: Execution)
    ensures e.sent == CloseCurrentTab
    ensures e.outcome.Done? && e.outcome.result.success <==> reply.Answer? && Succeeded(reply.response)
    ensures reply.Answer? && Succeeded(reply.response) ==> e.outcome == Done(Closing("Closed current tab"))
    ensures reply.Answer? && !Succeeded(reply.response) ==>
      e.outcome == Done(Failure(ErrorOr(reply.response, "Failed to close current tab")))
    ensures reply.LastError? ==> e.outcome == Done(Failure(reply.lastError))
    ensures reply.Threw? ==> e.outcome == Raised(reply.thrown)
    ensures e.refresh == if reply.Answer? && Succeeded(reply.response) then TabsRefresh else NoRefresh
  {
    Settle(CloseCurrentTab, reply,
      response => if Succeeded(response) then Closing("Closed current tab")
                  else Failure(ErrorOr(response, "Failed to close current tab")),
      TabsRefresh)
  }
}
