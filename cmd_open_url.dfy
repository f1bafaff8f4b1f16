/**
 * `url` (src/commands/OpenUrlCommand.ts): opens the argument as a URL in a
 * new tab, adding "https://" when it does not parse as written. Whether a
 * string parses as a URL is the environment's `parses`.
 */
module OpenUrlCommand {
  import opened Wrappers
  import opened Strings
  import opened CommandTypes
  import opened BaseCommand

  const Info: CommandInfo := CommandInfo("url", "Open", ["open", "url", "navigate"], SingleExecution, false)

  /** Every alias is declared in lower case. */
  lemma AliasesLowerCase()
    ensures forall i :: 0 <= i < |Info.aliases| ==> IsLower(Info.aliases[i])
  {
  }

  /** The id has no '-', so the suggestion suffix is the only one in a suggestion id. */
  lemma IdHasNoDash()
    ensures '-' !in Info.id
  {
  }

  /**
   * `isValidUrl`: the string parses, or it parses once "http://" is put in
   * front and looks like a domain (a '.' and no space).
   */
  predicate IsValidUrl(s: string, env: Env)
  {
    env.parses(s) || (env.parses("http://" + s) && '.' in s && ' ' !in s)
  }

  /**
   * `normalizeUrl`: the string itself when it parses; otherwise "https://"
   * in front when that parses; otherwise the string unchanged.
   */
  function NormalizeUrl(s: string, env: Env): (r: string)
    ensures env.parses(s) ==> r == s
    ensures r == s || (r == "https://" + s && !env.parses(s) && env.parses(r))
    ensures env.parses(r) <==> env.parses(s) || env.parses("https://" + s)
  {
    if env.parses(s) then s
    else if env.parses("https://" + s) then "https://" + s
    else s
  }

  function DisplayTitle(query: string, env: Env): string
  {
    var argument := ExtractArgument(Info, query);
    if IsBlank(argument) then "Open URL"
    else if IsValidUrl(argument, env) then "Open: " + NormalizeUrl(argument, env)
    else "Open: " + argument + " (invalid URL)"
  }

  /**
   * `getSearchResults`: exactly one row, a help row for a blank argument,
   * an open row for a valid URL and an invalid-URL row otherwise.
   */
  function SearchResults(context: CommandContext, env: Env): (r: seq<Item>)
    ensures |r| == 1
    ensures var argument := ExtractArgument(Info, context.query);
      && (IsBlank(argument) ==> r == [ActionItem("open-url-help", "Enter a URL to open in a new tab", NoEffect)])
      && (!IsBlank(argument) && IsValidUrl(argument, env) ==>
          r == [ActionItem("open-url-" + argument, "Open: " + NormalizeUrl(argument, env), NoEffect)])
      && (!IsBlank(argument) && !IsValidUrl(argument, env) ==>
          r == [ActionItem("invalid-url", "\"" + argument + "\" is not a valid URL", NoEffect)])
  {
    var argument := ExtractArgument(Info, context.query);
    if IsBlank(argument) then [ActionItem("open-url-help", "Enter a URL to open in a new tab", NoEffect)]
    else if IsValidUrl(argument, env) then [ActionItem("open-url-" + argument, "Open: " + NormalizeUrl(argument, env), NoEffect)]
    else [ActionItem("invalid-url", "\"" + argument + "\" is not a valid URL", NoEffect)]
  }

  /**
   * `execute`: a blank argument and an invalid URL are rejected without
   * opening anything; otherwise the normalised URL is opened.
   */
  function ExecuteSpec(context: ExecContext, reply: Reply, env: Env): (e: Execution)
    ensures var argument := ExtractArgument(Info, context.query);
      && (IsBlank(argument) ==> e == Rejected("Please provide a URL to open"))
      && (!IsBlank(argument) && !IsValidUrl(argument, env) ==> e == Rejected("\"" + argument + "\" is not a valid URL"))
      && (e.sent != NoRequest <==> !IsBlank(argument) && IsValidUrl(argument, env))
      && (e.sent != NoRequest ==> e.sent == OpenUrl(NormalizeUrl(argument, env)))
      && (e.sent != NoRequest && reply.Answer? ==> e.outcome == Done(Closing("Opened: " + NormalizeUrl(argument, env))))
      && (e.sent != NoRequest && reply.LastError? ==> e.outcome == Done(Failure(reply.lastError)))
      && (e.sent != NoRequest && reply.Threw? ==> e.outcome == Raised(reply.thrown))
    ensures e.refresh == if e.sent != NoRequest && reply.Answer? then TabsRefresh else NoRefresh
  {
    var argument := ExtractArgument(Info, context.query);
    if IsBlank(argument) then Rejected("Please provide a URL to open")
    else if !IsValidUrl(argument, env) then Rejected("\"" + argument + "\" is not a valid URL")
    else
      var url := NormalizeUrl(argument, env);
      Settle(OpenUrl(url), reply, _ => Closing("Opened: " + url), TabsRefresh)
  }

  /**
   * A string with a '.', no space and no scheme of its own is valid when
   * "http://" makes it parse, and is then opened with "https://" in front
   * if that parses too.
   */
  lemma DomainOpensWithHttps(s: string, env: Env)
    requires !env.parses(s) && env.parses("http://" + s) && env.parses("https://" + s)
    requires '.' in s && ' ' !in s
    ensures IsValidUrl(s, env) && NormalizeUrl(s, env) == "https://" + s
  {
  }
}
