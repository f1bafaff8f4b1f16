/** `previous_tab` (src/commands/PreviousTabCommand.ts): switches to the previously active tab. */
module PreviousTabCommand {
  import opened Wrappers
  import opened Strings
  import opened CommandTypes
  import opened BaseCommand

  const Info: CommandInfo := CommandInfo("previous_tab", "Previous Tab", ["previous tab", "prev tab", "previous", "prev"], SingleExecution, false)

  /** Every alias is declared in lower case. */
  lemma AliasesLowerCase()
    ensures forall i :: 0 <= i < |Info.aliases| ==> IsLower(Info.aliases[i])
  {
  }

  /** The id has no '-', so the suggestion suffix is the only one in a suggestion id. */
  lemma IdHasNoDash()
    ensures '-' !in Info.id
  {
  }

  /** `getDisplayTitle`: always the command's name. */
  function DisplayTitle(query: string): (t: string)
    ensures t == Info.name
  {
    "Previous Tab"
  }

  /** `getSearchResults`: this command lists nothing. */
  function SearchResults(context: CommandContext): (r: seq<Item>)
    ensures r == []
  {
    []
  }

  /**
   * `execute`: asks the background script to switch; succeeds exactly when
   * it answers with success, and otherwise reports its message or "No
   * previous tab available".
   */
  function ExecuteSpec(context: ExecContext, reply: Reply): (e: Execution)
    ensures e.sent == SwitchToPreviousTab
    ensures e.outcome.Done? && e.outcome.result.success <==> reply.Answer? && Succeeded(reply.response)
    ensures reply.Answer? && Succeeded(reply.response) ==> e.outcome == Done(Closing("Switched to previous tab"))
    ensures reply.Answer? && !Succeeded(reply.response) ==>
      e.outcome == Done(Failure(MessageOr(reply.response, "No previous tab available")))
    ensures reply.LastError? ==> e.outcome == Done(Failure(reply.lastError))
    ensures reply.Threw? ==> e.outcome == Raised(reply.thrown)
    ensures e.refresh == NoRefresh
  {
    Settle(SwitchToPreviousTab, reply,
      response => if Succeeded(response) then Closing("Switched to previous tab")
                  else Failure(MessageOr(response, "No previous tab available")),
      NoRefresh)
  }
}
